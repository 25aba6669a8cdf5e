/**
 * The engine's static events that the scene-load managers register on (SceneManager.sceneLoaded
 * and sceneUnloaded, EditorApplication.playModeStateChanged, SceneStopwatch.OnStart and OnStop),
 * as explicit invocation lists of handlers, and the calls a manager makes on its listeners.
 *
 * `e += h` appends `h` to the invocation list; `e -= h` (Delegate.Remove) removes the LAST
 * occurrence of an equal delegate and leaves the list alone when there is none.
 */
module EngineEvents {
  import opened Engine

  /** A delegate on one of the events: a listener's method, a manager's method, or a static dispatcher. */
  datatype Handler =
    | ListenerSceneLoad(listener: Asset)      // listener.OnSceneLoad
    | ListenerSceneUnload(listener: Asset)    // listener.OnSceneUnload
    | PlayModeChanged(manager: int)           // OnPlayModeStateChanged of the manager with this instance id
    | DispatchSceneLoad                       // the static SceneLoadManager.OnSceneLoad
    | DispatchSceneUnload                     // the static SceneLoadManager.OnSceneUnload
    | DispatchStopwatchStart                  // the static SceneLoadManager.OnSceneStopWatchStart
    | DispatchStopwatchStop                   // the static SceneLoadManager.OnSceneStopWatchStop

  datatype PlayModeStateChange = EnteredEditMode | ExitingEditMode | EnteredPlayMode | ExitingPlayMode

  /** The invocation lists of the five events. */
  class Events {
    var sceneLoaded: seq<Handler>
    var sceneUnloaded: seq<Handler>
    var playModeStateChanged: seq<Handler>
    var stopwatchStart: seq<Handler>
    var stopwatchStop: seq<Handler>

    constructor ()
      ensures sceneLoaded == [] && sceneUnloaded == [] && playModeStateChanged == []
      ensures stopwatchStart == [] && stopwatchStop == []
    {
      sceneLoaded, sceneUnloaded, playModeStateChanged := [], [], [];
      stopwatchStart, stopwatchStop := [], [];
    }
  }

  /** `s -= h`: drops the last occurrence of `h`. */
  function RemoveLast(s: seq<Handler>, h: Handler): (r: seq<Handler>)
    ensures h !in s ==> r == s
    ensures h in s ==> |r| == |s| - 1 && multiset(r) == multiset(s) - multiset{h}
  {
    if |s| == 0 then s
    else
      assert s == s[..|s| - 1] + [s[|s| - 1]];
      if s[|s| - 1] == h then s[..|s| - 1]
      else RemoveLast(s[..|s| - 1], h) + [s[|s| - 1]]
  }

  /** `s -= hs[0]; s -= hs[1]; ...` in order. */
  function RemoveEach(s: seq<Handler>, hs: seq<Handler>): seq<Handler>
    decreases hs
  {
    if |hs| == 0 then s else RemoveEach(RemoveLast(s, hs[0]), hs[1..])
  }

  /** Removing handlers that are all registered (with multiplicity) takes away exactly those registrations. */
  lemma {:induction false} RemoveEachCount(s: seq<Handler>, hs: seq<Handler>)
    requires multiset(hs) <= multiset(s)
    ensures multiset(RemoveEach(s, hs)) == multiset(s) - multiset(hs)
    decreases hs
  {
    if |hs| > 0 {
      assert hs == [hs[0]] + hs[1..];
      assert hs[0] in multiset(s);
      var t := RemoveLast(s, hs[0]);
      assert multiset(t) == multiset(s) - multiset{hs[0]};
      assert multiset(hs[1..]) <= multiset(t);
      RemoveEachCount(t, hs[1..]);
    }
  }

  /** Removing one more handler after a run of removals is one more `-=`. */
  lemma {:induction false} RemoveEachAppend(s: seq<Handler>, hs: seq<Handler>, h: Handler)
    ensures RemoveEach(s, hs + [h]) == RemoveLast(RemoveEach(s, hs), h)
    decreases hs
  {
    if |hs| == 0 {
      assert hs + [h] == [h];
      assert RemoveEach(s, [h]) == RemoveEach(RemoveLast(s, h), []);
    } else {
      assert (hs + [h])[0] == hs[0] && (hs + [h])[1..] == hs[1..] + [h];
      RemoveEachAppend(RemoveLast(s, hs[0]), hs[1..], h);
    }
  }

  /** Registering handlers and then removing the same handlers restores the registrations. */
  lemma AddThenRemoveRestores(s: seq<Handler>, hs: seq<Handler>)
    ensures multiset(RemoveEach(s + hs, hs)) == multiset(s)
  {
    RemoveEachCount(s + hs, hs);
  }

  /** `n` registrations of the same handler. */
  function Repeat(n: nat, h: Handler): (r: seq<Handler>)
    ensures |r| == n && multiset(r) == multiset{}[h := n]
  {
    if n == 0 then [] else Repeat(n - 1, h) + [h]
  }

  /** The `sceneLoaded` delegates of the listeners `ls`, in order. */
  function LoadHandlers(ls: seq<Asset>): (r: seq<Handler>)
    ensures |r| == |ls| && forall i :: 0 <= i < |ls| ==> r[i] == ListenerSceneLoad(ls[i])
  {
    seq(|ls|, i requires 0 <= i < |ls| => ListenerSceneLoad(ls[i]))
  }

  /** The `sceneUnloaded` delegates of the listeners `ls`, in order. */
  function UnloadHandlers(ls: seq<Asset>): (r: seq<Handler>)
    ensures |r| == |ls| && forall i :: 0 <= i < |ls| ==> r[i] == ListenerSceneUnload(ls[i])
  {
    seq(|ls|, i requires 0 <= i < |ls| => ListenerSceneUnload(ls[i]))
  }

  /** What a listener is told: ISceneLoadListener.OnSceneLoad, OnSceneUnload, OnStopwatchStart or OnStopwatchStop. */
  datatype Notification =
    | SceneLoaded(scene: Scene, mode: LoadSceneMode)
    | SceneUnloaded(scene: Scene)
    | StopwatchStarted(scene: Scene)
    | StopwatchStopped(scene: Scene)

  datatype ListenerCall = ListenerCall(listener: Asset, notification: Notification)

  /** One call of `n` on each listener, in list order. */
  function FanOut(ls: seq<Asset>, n: Notification): (r: seq<ListenerCall>)
    ensures |r| == |ls|
    ensures forall i :: 0 <= i < |ls| ==> r[i] == ListenerCall(ls[i], n)
  {
    if |ls| == 0 then [] else [ListenerCall(ls[0], n)] + FanOut(ls[1..], n)
  }

  /** A listener receives `n` from a fan-out exactly as often as it occurs in the list. */
  lemma {:induction false} FanOutReachesEachOccurrence(ls: seq<Asset>, n: Notification, l: Asset)
    ensures multiset(FanOut(ls, n))[ListenerCall(l, n)] == multiset(ls)[l]
  {
    if |ls| > 0 {
      assert ls == [ls[0]] + ls[1..];
      assert FanOut(ls, n) == [ListenerCall(ls[0], n)] + FanOut(ls[1..], n);
      FanOutReachesEachOccurrence(ls[1..], n, l);
    }
  }

  /** The `foreach (var listener in listeners) listener.X(...)` loop of every dispatcher. */
  method Notify(ls: seq<Asset>, n: Notification) returns (calls: seq<ListenerCall>)
    ensures calls == FanOut(ls, n)
  {
    calls := [];
    for i := 0 to |ls|
      invariant |calls| == i
      invariant forall k :: 0 <= k < i ==> calls[k] == ListenerCall(ls[k], n)
    {
      calls := calls + [ListenerCall(ls[i], n)];
    }
  }

  /** `n` copies of `s`, one after the other. */
  function Times<X>(n: nat, s: seq<X>): seq<X>
  {
    if n == 0 then [] else Times(n - 1, s) + s
  }

  /** In `n` copies of `s`, each element occurs `n` times as often as in `s`. */
  lemma {:induction false} TimesCount<X>(n: nat, s: seq<X>, x: X)
    ensures multiset(Times(n, s))[x] == n * multiset(s)[x]
  {
    if n > 0 {
      var c := multiset(s)[x];
      TimesCount(n - 1, s, x);
      assert multiset(Times(n, s)) == multiset(Times(n - 1, s)) + multiset(s);
      assert multiset(Times(n, s))[x] == (n - 1) * c + c;
      assert (n - 1) * c + c == n * c;
    }
  }

  /** Appending one more copy. */
  lemma TimesStep<X>(c: seq<X>, n: nat, s: seq<X>)
    ensures c + Times(n, s) + s == c + Times(n + 1, s)
  {
  }

  /** The count of `h` in a prefix grows by one exactly when the next element is `h`. */
  lemma CountStep(hs: seq<Handler>, i: nat, h: Handler)
    requires i < |hs|
    ensures multiset(hs[..i + 1])[h] == multiset(hs[..i])[h] + if hs[i] == h then 1 else 0
  {
    assert hs[..i + 1] == hs[..i] + [hs[i]];
  }

  /**
   * A fan-out of `n` run once per registration, `k` registrations in all: a listener occurring
   * `m` times in the list receives `n` exactly `k * m` times.
   */
  lemma RepeatedFanOutReachesEach(k: nat, ls: seq<Asset>, n: Notification, l: Asset)
    ensures multiset(Times(k, FanOut(ls, n)))[ListenerCall(l, n)] == k * multiset(ls)[l]
  {
    TimesCount(k, FanOut(ls, n), ListenerCall(l, n));
    FanOutReachesEachOccurrence(ls, n, l);
  }
}
