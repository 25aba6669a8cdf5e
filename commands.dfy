/**
 * The command invoker of Command/CommandManager.cs. A command is a value with an identity
 * and its RemoveAfterExecute flag; how its `Execute` ends is given by an oracle `run`. A
 * pass over a list records the commands executed in order, the list afterwards and how the
 * pass ended. The list a pass mutates is always a fresh `ToList` copy made by its caller, so
 * the passes here take the list by value and return it.
 */
module Commands {
  import opened Engine

  datatype Command = Command(id: nat, removeAfterExecute: bool)

  /** How one `await command.Execute()` ends: normally, with OperationCanceledException, or with any other exception. */
  datatype Outcome = Completed | Canceled | Failed

  /** How a pass or a call ends: normally, or with an exception propagating out of it. */
  datatype Ending = Finished | Threw(outcome: Outcome)

  /** A pass: the commands executed, in order (the trace), the list afterwards, and how it ended. */
  datatype Pass = Pass(executed: seq<Command>, remaining: seq<Command>, ending: Ending)

  /** `a` is `b` with some elements left out, the rest in their order. */
  predicate Subsequence<X(==)>(a: seq<X>, b: seq<X>)
    decreases |b|
  {
    |a| == 0 || (|b| > 0 && ((a[0] == b[0] && Subsequence(a[1..], b[1..])) || Subsequence(a, b[1..])))
  }

  /** ExecuteCommand: awaits the command, swallowing OperationCanceledException only. */
  function ExecuteCommand(c: Command, run: Command -> Outcome): (e: Ending)
    ensures e == Finished <==> run(c) != Failed
    ensures e != Finished ==> e == Threw(Failed)
  {
    match run(c)
    case Failed => Threw(Failed)
    case _ => Finished
  }

  /**
   * InvokeSequentially from the loop's current index on, `s` being the list from that index.
   * A flagged command is removed after it completes, and the index still advances, so the
   * command that moves into its slot (s[1]) is kept without being executed. Nothing is caught.
   */
  function Sequential(s: seq<Command>, run: Command -> Outcome): (p: Pass)
    decreases |s|
  {
    if |s| == 0 then Pass([], [], Finished)
    else if run(s[0]) != Completed then Pass([s[0]], s, Threw(run(s[0])))
    else if !s[0].removeAfterExecute then
      var p := Sequential(s[1..], run);
      Pass([s[0]] + p.executed, [s[0]] + p.remaining, p.ending)
    else if |s| == 1 then Pass([s[0]], [], Finished)
    else
      var p := Sequential(s[2..], run);
      Pass([s[0]] + p.executed, [s[1]] + p.remaining, p.ending)
  }

  /**
   * InvokeReverse on `s`: from the highest index down, a flagged command is removed after it
   * completes; OperationCanceledException is caught and the command kept; any other exception
   * propagates and ends the pass.
   */
  function Reverse(s: seq<Command>, run: Command -> Outcome): (p: Pass)
    decreases |s|
  {
    if |s| == 0 then Pass([], [], Finished)
    else
      var c := s[|s| - 1];
      if run(c) == Failed then Pass([c], s, Threw(Failed))
      else
        var p := Reverse(s[..|s| - 1], run);
        Pass([c] + p.executed, p.remaining + (if run(c) == Completed && c.removeAfterExecute then [] else [c]), p.ending)
  }

  /** The combined pass: what was done before the current index, then the rest of the pass. */
  function After(executed: seq<Command>, kept: seq<Command>, p: Pass): Pass
  {
    Pass(executed + p.executed, kept + p.remaining, p.ending)
  }

  /** The list from index `i` on; empty once the index has run past the end. */
  function From(list: seq<Command>, i: nat): seq<Command>
  {
    if i <= |list| then list[i..] else []
  }

  /** The list below index `i`; all of it once the index has run past the end. */
  function Prefix(list: seq<Command>, i: nat): seq<Command>
  {
    if i <= |list| then list[..i] else list
  }

  /** One completed iteration of InvokeSequentially's loop at index `i`. */
  lemma SequentialStep(executed: seq<Command>, list: seq<Command>, i: nat, run: Command -> Outcome)
    requires i < |list| && run(list[i]) == Completed
    ensures var next := if list[i].removeAfterExecute then list[..i] + list[i + 1..] else list;
            After(executed, Prefix(list, i), Sequential(From(list, i), run)) ==
            After(executed + [list[i]], Prefix(next, i + 1), Sequential(From(next, i + 1), run))
  {
    if !list[i].removeAfterExecute {
      StepKept(executed, list, i, run);
    } else if i + 1 < |list| {
      StepRemoved(executed, list, i, run);
    } else {
      StepRemovedLast(executed, list, i, run);
    }
  }

  lemma StepKept(executed: seq<Command>, list: seq<Command>, i: nat, run: Command -> Outcome)
    requires i < |list| && run(list[i]) == Completed && !list[i].removeAfterExecute
    ensures After(executed, Prefix(list, i), Sequential(From(list, i), run)) ==
            After(executed + [list[i]], Prefix(list, i + 1), Sequential(From(list, i + 1), run))
  {
    var c := list[i];
    var s := list[i..];
    assert From(list, i) == s && From(list, i + 1) == list[i + 1..] && Prefix(list, i + 1) == list[..i + 1];
    assert s[1..] == list[i + 1..];
    var q := Sequential(s[1..], run);
    assert Sequential(s, run) == Pass([c] + q.executed, [c] + q.remaining, q.ending);
    assert list[..i + 1] == list[..i] + [c];
    assert executed + ([c] + q.executed) == executed + [c] + q.executed;
    assert list[..i] + ([c] + q.remaining) == list[..i] + [c] + q.remaining;
  }

  lemma StepRemoved(executed: seq<Command>, list: seq<Command>, i: nat, run: Command -> Outcome)
    requires i + 1 < |list| && run(list[i]) == Completed && list[i].removeAfterExecute
    ensures var next := list[..i] + list[i + 1..];
            After(executed, Prefix(list, i), Sequential(From(list, i), run)) ==
            After(executed + [list[i]], Prefix(next, i + 1), Sequential(From(next, i + 1), run))
  {
    var c := list[i];
    var s := list[i..];
    var next := list[..i] + list[i + 1..];
    assert s[2..] == list[i + 2..];
    var q := Sequential(s[2..], run);
    assert Sequential(s, run) == Pass([c] + q.executed, [list[i + 1]] + q.remaining, q.ending);
    assert From(list, i) == s && Prefix(list, i) == list[..i];
    assert next[..i + 1] == list[..i] + [list[i + 1]];
    assert next[i + 1..] == list[i + 2..];
    assert From(next, i + 1) == s[2..] && Prefix(next, i + 1) == list[..i] + [list[i + 1]];
    assert executed + ([c] + q.executed) == executed + [c] + q.executed;
    assert list[..i] + ([list[i + 1]] + q.remaining) == list[..i] + [list[i + 1]] + q.remaining;
  }

  lemma StepRemovedLast(executed: seq<Command>, list: seq<Command>, i: nat, run: Command -> Outcome)
    requires i + 1 == |list| && run(list[i]) == Completed && list[i].removeAfterExecute
    ensures var next := list[..i] + list[i + 1..];
            After(executed, Prefix(list, i), Sequential(From(list, i), run)) ==
            After(executed + [list[i]], Prefix(next, i + 1), Sequential(From(next, i + 1), run))
  {
    var s := list[i..];
    assert s == [list[i]];
    assert list[..i] + list[i + 1..] == list[..i];
  }

  lemma StepThrew(executed: seq<Command>, list: seq<Command>, i: nat, run: Command -> Outcome)
    requires i < |list| && run(list[i]) != Completed
    ensures After(executed, Prefix(list, i), Sequential(From(list, i), run)) == Pass(executed + [list[i]], list, Threw(run(list[i])))
  {
    assert list[..i] + list[i..] == list;
  }

  /** The combined reverse pass: what was executed above the current index, then the pass below it, then what was kept above it. */
  function Around(executed: seq<Command>, p: Pass, kept: seq<Command>): Pass
  {
    Pass(executed + p.executed, p.remaining + kept, p.ending)
  }

  /** One iteration of InvokeReverse's loop at index `i` that does not fail, `kept` being what it kept above `i`. */
  lemma ReverseStep(executed: seq<Command>, commands: seq<Command>, i: nat, kept: seq<Command>, run: Command -> Outcome)
    requires i < |commands| && run(commands[i]) != Failed
    ensures var c := commands[i];
            var kept' := if run(c) == Completed && c.removeAfterExecute then kept else [c] + kept;
            Around(executed, Reverse(commands[..i + 1], run), kept) == Around(executed + [c], Reverse(commands[..i], run), kept')
  {
    assert commands[..i + 1][..i] == commands[..i];
  }

  /** The iteration of InvokeReverse's loop at index `i` that fails ends the pass with the list as it is. */
  lemma ReverseFails(executed: seq<Command>, commands: seq<Command>, i: nat, kept: seq<Command>, run: Command -> Outcome)
    requires i < |commands| && run(commands[i]) == Failed
    ensures Around(executed, Reverse(commands[..i + 1], run), kept) ==
            Pass(executed + [commands[i]], commands[..i + 1] + kept, Threw(Failed))
  {
  }

  /** How the list of InvokeReverse's loop changes at index `i`. */
  lemma ReverseListStep(commands: seq<Command>, i: nat, kept: seq<Command>)
    requires i < |commands|
    ensures (commands[..i + 1] + kept)[i] == commands[i]
    ensures (commands[..i + 1] + kept)[..i] + (commands[..i + 1] + kept)[i + 1..] == commands[..i] + kept
    ensures commands[..i + 1] + kept == commands[..i] + ([commands[i]] + kept)
  {
    var list := commands[..i + 1] + kept;
    assert list[..i] == commands[..i];
    assert list[i + 1..] == kept;
  }

  /** `for (int i = 0; i < commands.Count; i++) { await commands[i].Execute(); if (flag) commands.RemoveAt(i); }` */
  method InvokeSequentially(commands: seq<Command>, run: Command -> Outcome) returns (p: Pass)
    ensures p == Sequential(commands, run)
  {
    var list := commands;
    var executed: seq<Command> := [];
    var i := 0;
    assert commands[0..] == commands;
    while i < |list|
      invariant i <= |list| + 1
      invariant Sequential(commands, run) == After(executed, Prefix(list, i), Sequential(From(list, i), run))
      decreases |list| + 1 - i
    {
      var c := list[i];
      if run(c) != Completed {
        StepThrew(executed, list, i, run);
        return Pass(executed + [c], list, Threw(run(c)));
      }
      SequentialStep(executed, list, i, run);
      executed := executed + [c];
      if c.removeAfterExecute {
        list := list[..i] + list[i + 1..];
      }
      i := i + 1;
    }
    assert Prefix(list, i) == list;
    p := Pass(executed, list, Finished);
  }

  /** `for (int i = commands.Count - 1; i >= 0; i--) try { ...; if (flag) commands.RemoveAt(i); } catch (OperationCanceledException) { }` */
  method InvokeReverse(commands: seq<Command>, run: Command -> Outcome) returns (p: Pass)
    ensures p == Reverse(commands, run)
  {
    var list := commands;
    var executed: seq<Command> := [];
    ghost var kept: seq<Command> := [];
    var i := |list| - 1;
    assert commands[..|commands|] == commands;
    while i >= 0
      invariant -1 <= i < |commands|
      invariant list == commands[..i + 1] + kept
      invariant Reverse(commands, run) == Around(executed, Reverse(commands[..i + 1], run), kept)
    {
      ReverseListStep(commands, i, kept);
      var c := list[i];
      if run(c) == Failed {
        ReverseFails(executed, commands, i, kept, run);
        return Pass(executed + [c], list, Threw(Failed));
      }
      ReverseStep(executed, commands, i, kept, run);
      executed := executed + [c];
      if run(c) == Completed && c.removeAfterExecute {
        list := list[..i] + list[i + 1..];
      } else {
        kept := [c] + kept;
      }
      i := i - 1;
    }
    p := Pass(executed, list, Finished);
  }

  /** On a cancelled command, ExecuteCommand and InvokeReverse swallow the exception and InvokeSequentially does not. */
  lemma SingleCommandEndings(c: Command, run: Command -> Outcome)
    ensures Reverse([c], run).ending == ExecuteCommand(c, run)
    ensures run(c) == Canceled ==> Sequential([c], run).ending == Threw(Canceled) && ExecuteCommand(c, run) == Finished
  {
    assert [c][..0] == [];
  }

  /** Three commands that complete, the first flagged: the second is skipped and kept, the third runs. */
  lemma SequentialSkipsShiftedCommand(a: Command, b: Command, c: Command, run: Command -> Outcome)
    requires a.removeAfterExecute && run(a) == Completed && run(b) == Completed && run(c) == Completed
    ensures Sequential([a, b, c], run) == Pass([a, c], [b] + (if c.removeAfterExecute then [] else [c]), Finished)
  {
    var s := [a, b, c];
    assert s[2..] == [c];
    assert [c][1..] == [];
    var q := Sequential([c], run);
    assert Sequential([], run) == Pass([], [], Finished);
    assert q == Pass([c], if c.removeAfterExecute then [] else [c], Finished);
    assert Sequential(s, run) == Pass([a] + q.executed, [b] + q.remaining, q.ending);
  }

  lemma {:induction false} SubsequenceOfItself<X>(s: seq<X>)
    ensures Subsequence(s, s)
    decreases |s|
  {
    if |s| > 0 {
      SubsequenceOfItself(s[1..]);
    }
  }

  lemma SubsequenceCons<X>(a: seq<X>, b: seq<X>, x: X)
    requires Subsequence(a, b)
    ensures Subsequence([x] + a, [x] + b)
    ensures Subsequence(a, [x] + b)
  {
    assert ([x] + a)[1..] == a;
    assert ([x] + b)[1..] == b;
  }

  lemma {:induction false} SubsequenceMembers<X>(a: seq<X>, b: seq<X>)
    requires Subsequence(a, b)
    ensures forall x :: x in a ==> x in b
    decreases |b|
  {
    if |a| > 0 {
      if a[0] == b[0] && Subsequence(a[1..], b[1..]) {
        SubsequenceMembers(a[1..], b[1..]);
        assert a == [a[0]] + a[1..];
      } else {
        SubsequenceMembers(a, b[1..]);
      }
    }
  }

  /** InvokeSequentially executes commands from index 0 upward and keeps the remaining ones in their order. */
  lemma {:induction false} SequentialOrder(s: seq<Command>, run: Command -> Outcome)
    ensures Subsequence(Sequential(s, run).executed, s)
    ensures Subsequence(Sequential(s, run).remaining, s)
    decreases |s|
  {
    if |s| > 0 {
      assert s == [s[0]] + s[1..];
      if run(s[0]) != Completed {
        SubsequenceOfItself(s);
        assert [s[0]][1..] == [];
      } else if !s[0].removeAfterExecute {
        SequentialOrder(s[1..], run);
        var q := Sequential(s[1..], run);
        SubsequenceCons(q.executed, s[1..], s[0]);
        SubsequenceCons(q.remaining, s[1..], s[0]);
      } else if |s| == 1 {
        assert [s[0]][1..] == [];
      } else {
        SequentialOrder(s[2..], run);
        var q := Sequential(s[2..], run);
        assert s[1..] == [s[1]] + s[2..];
        SubsequenceCons(q.executed, s[2..], s[1]);
        SubsequenceCons(q.executed, s[1..], s[0]);
        SubsequenceCons(q.remaining, s[2..], s[1]);
        SubsequenceCons([s[1]] + q.remaining, s[1..], s[0]);
      }
    }
  }

  /** Every command InvokeSequentially removed carried the flag, was executed and completed. */
  lemma {:induction false} SequentialRemovedWereExecuted(s: seq<Command>, run: Command -> Outcome)
    ensures forall c :: c in s && c !in Sequential(s, run).remaining ==>
              c.removeAfterExecute && run(c) == Completed && c in Sequential(s, run).executed
    decreases |s|
  {
    if |s| > 0 && run(s[0]) == Completed {
      assert s == [s[0]] + s[1..];
      if !s[0].removeAfterExecute {
        SequentialRemovedWereExecuted(s[1..], run);
      } else if |s| >= 2 {
        assert s[1..] == [s[1]] + s[2..];
        SequentialRemovedWereExecuted(s[2..], run);
      }
    }
  }

  predicate AllCompleted(e: seq<Command>, run: Command -> Outcome)
  {
    forall k :: 0 <= k < |e| ==> run(e[k]) == Completed
  }

  lemma AllCompletedCons(x: Command, e: seq<Command>, run: Command -> Outcome)
    requires run(x) == Completed
    ensures AllCompleted([x] + e, run) <==> AllCompleted(e, run)
    ensures |e| > 0 ==> ([x] + e)[..|e|] == [x] + e[..|e| - 1] && ([x] + e)[|e|] == e[|e| - 1]
  {
    assert forall k :: 0 <= k < |e| ==> ([x] + e)[k + 1] == e[k];
    if |e| > 0 {
      assert ([x] + e)[..|e|] == [x] + e[..|e| - 1];
    }
  }

  /** The tail a completed first command hands InvokeSequentially's loop on to: one further on when it was removed. */
  function SequentialTail(s: seq<Command>): seq<Command>
    requires |s| > 0
  {
    if s[0].removeAfterExecute && |s| >= 2 then s[2..] else s[1..]
  }

  /** A completed first command that leaves something to run is executed, then the pass goes on with the tail. */
  lemma SequentialCons(s: seq<Command>, run: Command -> Outcome)
    requires |s| > 0 && run(s[0]) == Completed && !(s[0].removeAfterExecute && |s| == 1)
    ensures Sequential(s, run).executed == [s[0]] + Sequential(SequentialTail(s), run).executed
    ensures Sequential(s, run).ending == Sequential(SequentialTail(s), run).ending
  {
  }

  /** InvokeSequentially catches nothing: every executed command but the last completed. */
  lemma {:induction false} SequentialCompletedBeforeLast(s: seq<Command>, run: Command -> Outcome)
    ensures var e := Sequential(s, run).executed;
            |e| > 0 ==> AllCompleted(e[..|e| - 1], run)
    decreases |s|
  {
    if |s| > 0 && run(s[0]) == Completed && !(s[0].removeAfterExecute && |s| == 1) {
      SequentialCompletedBeforeLast(SequentialTail(s), run);
      SequentialCons(s, run);
      AllCompletedCons(s[0], Sequential(SequentialTail(s), run).executed, run);
    }
  }

  /** The pass finishes normally exactly when every command it executed completed. */
  lemma {:induction false} SequentialFinishesIffAllCompleted(s: seq<Command>, run: Command -> Outcome)
    ensures Sequential(s, run).ending == Finished <==> AllCompleted(Sequential(s, run).executed, run)
    decreases |s|
  {
    if |s| == 0 {
    } else if run(s[0]) != Completed {
      assert Sequential(s, run) == Pass([s[0]], s, Threw(run(s[0])));
      assert !AllCompleted([s[0]], run) by {
        assert [s[0]][0] == s[0];
      }
    } else if s[0].removeAfterExecute && |s| == 1 {
      assert Sequential(s, run).executed == [s[0]];
    } else {
      SequentialFinishesIffAllCompleted(SequentialTail(s), run);
      SequentialCons(s, run);
      AllCompletedCons(s[0], Sequential(SequentialTail(s), run).executed, run);
    }
  }

  /** A pass that ends with an exception ends with the exception of the last command it executed. */
  lemma {:induction false} SequentialThrowsLast(s: seq<Command>, run: Command -> Outcome)
    ensures var p := Sequential(s, run);
            p.ending.Threw? ==> |p.executed| > 0 && p.ending == Threw(run(p.executed[|p.executed| - 1]))
    decreases |s|
  {
    if |s| == 0 {
    } else if run(s[0]) != Completed {
      assert Sequential(s, run) == Pass([s[0]], s, Threw(run(s[0])));
    } else if s[0].removeAfterExecute && |s| == 1 {
    } else {
      SequentialThrowsLast(SequentialTail(s), run);
      SequentialCons(s, run);
      var q := Sequential(SequentialTail(s), run);
      var p := Sequential(s, run);
      if p.ending.Threw? {
        assert p.executed[|p.executed| - 1] == q.executed[|q.executed| - 1];
      }
    }
  }

  /** A flagged command that the pass executed and kept is the last one executed, and the pass threw. */
  predicate KeptFlaggedThrew(p: Pass)
  {
    forall c :: c in p.remaining && c.removeAfterExecute && c in p.executed ==>
      p.ending.Threw? && c == p.executed[|p.executed| - 1]
  }

  /**
   * The step of SequentialKeptFlagged: putting a command `x` that is not in the rest of the list
   * in front of the executed commands, and `y` in front of the kept ones, keeps the property when
   * `y` is `x` unflagged or a command that is neither `x` nor in the rest of the list.
   */
  lemma KeptFlaggedCons(x: Command, y: Command, q: Pass, tail: seq<Command>)
    requires forall c :: c in q.executed ==> c in tail
    requires forall c :: c in q.remaining ==> c in tail
    requires x !in tail
    requires (y == x && !x.removeAfterExecute) || (y != x && y !in tail)
    requires KeptFlaggedThrew(q)
    ensures KeptFlaggedThrew(Pass([x] + q.executed, [y] + q.remaining, q.ending))
  {
    var p := Pass([x] + q.executed, [y] + q.remaining, q.ending);
    forall c | c in p.remaining && c.removeAfterExecute && c in p.executed
      ensures p.ending.Threw? && c == p.executed[|p.executed| - 1]
    {
      assert c != y;
      assert c in q.remaining;
      assert c != x;
      assert c in q.executed;
      assert p.executed[|p.executed| - 1] == q.executed[|q.executed| - 1];
    }
  }

  /**
   * On a list without repeated commands, a flagged command that InvokeSequentially executed and
   * kept is the one whose exception ended the pass; every other flagged command it kept was skipped.
   */
  lemma {:induction false} SequentialKeptFlagged(s: seq<Command>, run: Command -> Outcome)
    requires Distinct(s)
    ensures KeptFlaggedThrew(Sequential(s, run))
    decreases |s|
  {
    if |s| > 0 && run(s[0]) == Completed && !(s[0].removeAfterExecute && |s| == 1) {
      var d := if s[0].removeAfterExecute then 2 else 1;
      var tail := s[d..];
      DistinctDrop(s, d);
      SequentialKeptFlagged(tail, run);
      SequentialOrder(tail, run);
      var q := Sequential(tail, run);
      SubsequenceMembers(q.executed, tail);
      SubsequenceMembers(q.remaining, tail);
      assert s[0] !in tail;
      assert d == 2 ==> s[1] != s[0] && s[1] !in tail;
      KeptFlaggedCons(s[0], s[d - 1], q, tail);
      assert Sequential(s, run) == Pass([s[0]] + q.executed, [s[d - 1]] + q.remaining, q.ending);
    }
  }

  /** Dropping the first `d` commands of a list without repeats leaves a list without repeats that holds none of them. */
  lemma DistinctDrop(s: seq<Command>, d: nat)
    requires Distinct(s) && 0 < d <= |s|
    ensures Distinct(s[d..])
    ensures forall c :: c in s[d..] ==> c != s[0] && (d == 2 ==> c != s[1])
  {
    var tail := s[d..];
    forall i, j | 0 <= i < j < |tail| ensures tail[i] != tail[j] {
      assert tail[i] == s[i + d] && tail[j] == s[j + d];
    }
    forall c | c in tail ensures c != s[0] && (d == 2 ==> c != s[1]) {
      var j :| 0 <= j < |tail| && tail[j] == c;
      assert s[j + d] == c;
    }
  }

  function Reversed<X>(s: seq<X>): (r: seq<X>)
    ensures |r| == |s| && forall i :: 0 <= i < |s| ==> r[i] == s[|s| - 1 - i]
  {
    if |s| == 0 then [] else [s[|s| - 1]] + Reversed(s[..|s| - 1])
  }

  /** The commands InvokeReverse keeps when nothing fails: all but the flagged ones that completed, in their order. */
  function Kept(s: seq<Command>, run: Command -> Outcome): seq<Command>
  {
    if |s| == 0 then []
    else Kept(s[..|s| - 1], run) + (if run(s[|s| - 1]) == Completed && s[|s| - 1].removeAfterExecute then [] else [s[|s| - 1]])
  }

  /**
   * When no command fails, InvokeReverse executes every command exactly once, from the highest
   * index to the lowest, finishes normally, and keeps exactly the commands that are not both
   * flagged and completed (a cancelled command stays).
   */
  lemma {:induction false} ReverseRunsEveryCommand(s: seq<Command>, run: Command -> Outcome)
    requires forall i :: 0 <= i < |s| ==> run(s[i]) != Failed
    ensures Reverse(s, run) == Pass(Reversed(s), Kept(s, run), Finished)
  {
    if |s| > 0 {
      ReverseRunsEveryCommand(s[..|s| - 1], run);
    }
  }

  /** A command that fails in InvokeReverse ends the pass: the commands below it are neither executed nor touched. */
  lemma {:induction false} ReverseStopsAtFailure(s: seq<Command>, k: nat, run: Command -> Outcome)
    requires k < |s| && run(s[k]) == Failed
    requires forall i :: k < i < |s| ==> run(s[i]) != Failed
    ensures Reverse(s, run).ending == Threw(Failed)
    ensures Reverse(s, run).executed == Reversed(s[k..])
    ensures Reverse(s, run).remaining == s[..k + 1] + Kept(s[k + 1..], run)
    decreases |s|
  {
    if k == |s| - 1 {
      assert s[k..] == [s[k]];
      assert s[k + 1..] == [];
      assert s[..k + 1] == s;
    } else {
      var n := |s| - 1;
      ReverseStopsAtFailure(s[..n], k, run);
      assert s[..n][k..] == s[k..n];
      assert s[..n][..k + 1] == s[..k + 1];
      assert s[..n][k + 1..] == s[k + 1..n];
      assert s[k + 1..][..|s[k + 1..]| - 1] == s[k + 1..n];
      assert s[k..][..|s[k..]| - 1] == s[k..n];
    }
  }

  /** The values of a CommandManager's dictionary whose key equals `obj`: `_commands.Where(x => x.Key == obj).Select(x => x.Value)`. */
  function CommandsOf(keys: seq<Obj>, entries: map<Obj, Command>, obj: Obj): (r: seq<Command>)
    requires forall k :: k in keys ==> k in entries
    requires Distinct(keys)
    ensures r == if obj in keys then [entries[obj]] else []
  {
    if |keys| == 0 then []
    else
      assert forall i :: 0 <= i < |keys| - 1 ==> keys[1..][i] == keys[i + 1];
      (if keys[0] == obj then [entries[keys[0]]] else []) + CommandsOf(keys[1..], entries, obj)
  }

  class CommandManager {
    var commands: Dictionary<Obj, Command>

    ghost predicate Valid()
      reads this
    {
      commands.Valid()
    }

    constructor (commands: Dictionary<Obj, Command>)
      requires commands.Valid()
      ensures Valid() && this.commands == commands
    {
      this.commands := commands;
    }

    /** ExecuteCommands: one sequential pass over a copy of the values; the dictionary is not changed. */
    method ExecuteCommands(run: Command -> Outcome) returns (p: Pass)
      requires Valid()
      ensures p == Sequential(commands.Values(), run)
    {
      p := InvokeSequentially(commands.Values(), run);
    }

    /** ExecuteObjectCommandsSequentially(obj): a sequential pass over the at most one command stored for `obj`. */
    method ExecuteObjectCommandsSequentially(obj: Obj, run: Command -> Outcome) returns (p: Pass)
      requires Valid()
      ensures obj !in commands.entries ==> p == Pass([], [], Finished)
      ensures obj in commands.entries ==> p == Sequential([commands.entries[obj]], run)
    {
      var objectCommands := CommandsOf(commands.keys, commands.entries, obj);
      p := InvokeSequentially(objectCommands, run);
    }
  }

  /** The `isExecuting` state of a BaseCommand, with the IsExecuting property. */
  class BaseCommand {
    var isExecuting: bool
    const removeAfterExecute: bool

    /** Both fields are serialized, so a loaded asset may carry any values. */
    constructor (isExecuting: bool, removeAfterExecute: bool)
      ensures this.isExecuting == isExecuting && this.removeAfterExecute == removeAfterExecute
    {
      this.isExecuting := isExecuting;
      this.removeAfterExecute := removeAfterExecute;
    }

    function IsExecuting(): bool
      reads this
    {
      isExecuting
    }

    /** The protected setter of IsExecuting: it assigns the getter's value to its own `value` parameter, and no field. */
    method SetIsExecuting(value: bool)
      ensures isExecuting == old(isExecuting)
    {
      var v := value;
      v := IsExecuting();
    }
  }

  /** A MoveCommand: the BaseCommand part, and the two IsExecuting assignments of Execute around the motion. */
  class MoveCommand {
    const base: BaseCommand

    constructor (isExecuting: bool, removeAfterExecute: bool)
      ensures fresh(base) && base.isExecuting == isExecuting && base.removeAfterExecute == removeAfterExecute
    {
      base := new BaseCommand(isExecuting, removeAfterExecute);
    }

    method Execute()
      ensures base.isExecuting == old(base.isExecuting)
    {
      base.SetIsExecuting(true);
      base.SetIsExecuting(false);
    }
  }
}
