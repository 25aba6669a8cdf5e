/**
 * The SceneLoadManager of the Command tree: on enable it loads the registry and subscribes
 * every registered ISceneLoadListener to the engine's scene events, keeping a list of the
 * listeners without duplicates; on entering edit mode it tells each listener the active scene
 * unloads; on disable it unsubscribes them and empties the list and the registry.
 */
module CommandSceneLoad {
  import opened Engine
  import opened EngineEvents
  import CommandRegistry

  /** `if (!list.Contains(x)) list.Add(x)` for each `x` of `xs` in order. */
  function AppendNew(s: seq<Asset>, xs: seq<Asset>): (r: seq<Asset>)
    ensures |s| <= |r| && r[..|s|] == s
    decreases xs
  {
    if |xs| == 0 then s
    else
      var next := if xs[0] in s then s else s + [xs[0]];
      assert next[..|s|] == s;
      var r := AppendNew(next, xs[1..]);
      assert r[..|s|] == r[..|next|][..|s|];
      r
  }

  /** The list afterwards holds exactly what it held and what was offered. */
  lemma {:induction false} AppendNewMembers(s: seq<Asset>, xs: seq<Asset>, a: Asset)
    ensures a in AppendNew(s, xs) <==> a in s || a in xs
    decreases xs
  {
    if |xs| > 0 {
      AppendNewMembers(if xs[0] in s then s else s + [xs[0]], xs[1..], a);
      assert a in xs <==> a == xs[0] || a in xs[1..];
    }
  }

  /** The Contains test keeps a duplicate-free list duplicate-free. */
  lemma {:induction false} AppendNewDistinct(s: seq<Asset>, xs: seq<Asset>)
    requires Distinct(s)
    ensures Distinct(AppendNew(s, xs))
    decreases xs
  {
    if |xs| > 0 {
      var next := if xs[0] in s then s else s + [xs[0]];
      assert Distinct(next) by {
        forall i, j | 0 <= i < j < |next| ensures next[i] != next[j] {
          if j == |s| {
            assert next[i] == s[i];
          }
        }
      }
      AppendNewDistinct(next, xs[1..]);
    }
  }

  lemma {:induction false} AppendNewAppend(s: seq<Asset>, xs: seq<Asset>, x: Asset)
    ensures AppendNew(s, xs + [x]) == AppendNew(AppendNew(s, xs), [x])
    decreases xs
  {
    if |xs| == 0 {
      assert xs + [x] == [x];
    } else {
      assert (xs + [x])[0] == xs[0] && (xs + [x])[1..] == xs[1..] + [x];
      AppendNewAppend(if xs[0] in s then s else s + [xs[0]], xs[1..], x);
    }
  }

  /** Listeners that are all in the list already add nothing. */
  lemma {:induction false} AppendNewPresent(s: seq<Asset>, xs: seq<Asset>)
    requires forall a :: a in xs ==> a in s
    ensures AppendNew(s, xs) == s
    decreases xs
  {
    if |xs| > 0 {
      assert xs[0] in xs;
      assert forall a :: a in xs[1..] ==> a in xs;
      AppendNewPresent(s, xs[1..]);
    }
  }

  /** The tail of a distinct run of new listeners is a distinct run of listeners new to the list grown by the head. */
  lemma FreshTail(s: seq<Asset>, xs: seq<Asset>)
    requires |xs| > 0 && Distinct(xs) && forall a :: a in xs ==> a !in s
    ensures Distinct(xs[1..]) && forall a :: a in xs[1..] ==> a !in s + [xs[0]]
  {
    var rest := xs[1..];
    forall i, j | 0 <= i < j < |rest| ensures rest[i] != rest[j] {
      assert rest[i] == xs[i + 1] && rest[j] == xs[j + 1];
    }
    forall a | a in rest ensures a !in s + [xs[0]] {
      var k :| 0 <= k < |rest| && rest[k] == a;
      assert xs[k + 1] == a;
    }
  }

  /** Distinct listeners none of which is in the list are all appended, in order. */
  lemma {:induction false} AppendNewFresh(s: seq<Asset>, xs: seq<Asset>)
    requires Distinct(xs) && forall a :: a in xs ==> a !in s
    ensures AppendNew(s, xs) == s + xs
    decreases xs
  {
    if |xs| > 0 {
      assert xs[0] in xs;
      FreshTail(s, xs);
      AppendNewFresh(s + [xs[0]], xs[1..]);
      assert s + [xs[0]] + xs[1..] == s + xs;
    }
  }

  /**
   * Enabling twice with the same distinct listeners keeps one entry per listener in the list
   * but registers every listener's handlers twice, so a disable afterwards removes only one of
   * each and leaves the other registered.
   */
  lemma DoubleEnableLeaks(loads: seq<Handler>, unloads: seq<Handler>, modes: seq<Handler>, found: seq<Asset>, instanceId: int)
    requires Distinct(found)
    ensures AppendNew(AppendNew([], found), found) == found
    ensures multiset(RemoveEach(loads + LoadHandlers(found) + LoadHandlers(found), LoadHandlers(found))) ==
              multiset(loads) + multiset(LoadHandlers(found))
    ensures multiset(RemoveEach(unloads + UnloadHandlers(found) + UnloadHandlers(found), UnloadHandlers(found))) ==
              multiset(unloads) + multiset(UnloadHandlers(found))
    ensures var rs := Repeat(|found|, PlayModeChanged(instanceId));
            multiset(RemoveEach(modes + rs + rs, rs)) == multiset(modes) + multiset(rs)
  {
    AppendNewFresh([], found);
    assert [] + found == found;
    AppendNewPresent(found, found);
    AddTwiceRemoveOnce(loads, LoadHandlers(found));
    AddTwiceRemoveOnce(unloads, UnloadHandlers(found));
    AddTwiceRemoveOnce(modes, Repeat(|found|, PlayModeChanged(instanceId)));
  }

  /** Registering the handlers `hs` twice and removing them once leaves one registration of each. */
  lemma AddTwiceRemoveOnce(s: seq<Handler>, hs: seq<Handler>)
    ensures multiset(RemoveEach(s + hs + hs, hs)) == multiset(s) + multiset(hs)
  {
    assert multiset(s + hs + hs) == multiset(s) + multiset(hs) + multiset(hs);
    RemoveEachCount(s + hs + hs, hs);
  }

  /**
   * A first enable with distinct listeners `found` followed by a disable gives every event back
   * the registrations it had before.
   */
  lemma EnableThenDisableRestores(loads: seq<Handler>, unloads: seq<Handler>, modes: seq<Handler>, found: seq<Asset>, instanceId: int)
    requires Distinct(found)
    ensures AppendNew([], found) == found
    ensures multiset(RemoveEach(loads + LoadHandlers(found), LoadHandlers(AppendNew([], found)))) == multiset(loads)
    ensures multiset(RemoveEach(unloads + UnloadHandlers(found), UnloadHandlers(AppendNew([], found)))) == multiset(unloads)
    ensures multiset(RemoveEach(modes + Repeat(|found|, PlayModeChanged(instanceId)),
                                Repeat(|AppendNew([], found)|, PlayModeChanged(instanceId)))) == multiset(modes)
  {
    AppendNewFresh([], found);
    assert [] + found == found;
    AddThenRemoveRestores(loads, LoadHandlers(found));
    AddThenRemoveRestores(unloads, UnloadHandlers(found));
    AddThenRemoveRestores(modes, Repeat(|found|, PlayModeChanged(instanceId)));
  }

  /** One more listener `so` subscribed on top of the subscriptions for `found`. */
  lemma SubscribeStep(ls0: seq<Asset>, loads0: seq<Handler>, unloads0: seq<Handler>, modes0: seq<Handler>,
                      found: seq<Asset>, so: Asset, instanceId: int)
    ensures var l := AppendNew(ls0, found);
            AppendNew(ls0, found + [so]) == (if so in l then l else l + [so])
    ensures loads0 + LoadHandlers(found) + [ListenerSceneLoad(so)] == loads0 + LoadHandlers(found + [so])
    ensures unloads0 + UnloadHandlers(found) + [ListenerSceneUnload(so)] == unloads0 + UnloadHandlers(found + [so])
    ensures modes0 + Repeat(|found|, PlayModeChanged(instanceId)) + [PlayModeChanged(instanceId)] ==
              modes0 + Repeat(|found + [so]|, PlayModeChanged(instanceId))
  {
    AppendNewAppend(ls0, found, so);
    HandlersStep(loads0, LoadHandlers(found), LoadHandlers(found + [so]), ListenerSceneLoad(so));
    HandlersStep(unloads0, UnloadHandlers(found), UnloadHandlers(found + [so]), ListenerSceneUnload(so));
    HandlersStep(modes0, Repeat(|found|, PlayModeChanged(instanceId)), Repeat(|found + [so]|, PlayModeChanged(instanceId)),
                 PlayModeChanged(instanceId));
  }

  lemma HandlersStep(s: seq<Handler>, before: seq<Handler>, after: seq<Handler>, h: Handler)
    requires |after| == |before| + 1 && after[..|before|] == before && after[|before|] == h
    ensures s + before + [h] == s + after
  {
    assert after == before + [h];
  }

  /**
   * The subscription loop of OnEnable over the registry's objects `all`: each ISceneLoadListener
   * joins the list `ls` unless it is there, and its two scene delegates and one more
   * OnPlayModeStateChanged delegate of manager `instanceId` are added to the event lists.
   */
  method SubscribeListeners(all: seq<Asset>, instanceId: int, ls0: seq<Asset>,
                            loads0: seq<Handler>, unloads0: seq<Handler>, modes0: seq<Handler>)
    returns (ls: seq<Asset>, loads: seq<Handler>, unloads: seq<Handler>, modes: seq<Handler>)
    ensures var found := OfType(all, SceneLoadListenerType);
              ls == AppendNew(ls0, found)
              && loads == loads0 + LoadHandlers(found)
              && unloads == unloads0 + UnloadHandlers(found)
              && modes == modes0 + Repeat(|found|, PlayModeChanged(instanceId))
  {
    ls, loads, unloads, modes := ls0, loads0, unloads0, modes0;
    ghost var found: seq<Asset> := [];
    for i := 0 to |all|
      invariant found == OfType(all[..i], SceneLoadListenerType)
      invariant ls == AppendNew(ls0, found)
      invariant loads == loads0 + LoadHandlers(found)
      invariant unloads == unloads0 + UnloadHandlers(found)
      invariant modes == modes0 + Repeat(|found|, PlayModeChanged(instanceId))
    {
      var so := all[i];
      OfTypePrefix(all, i, SceneLoadListenerType);
      if IsA(so, SceneLoadListenerType) {
        SubscribeStep(ls0, loads0, unloads0, modes0, found, so, instanceId);
        if so !in ls {
          ls := ls + [so];
        }
        loads := loads + [ListenerSceneLoad(so)];
        unloads := unloads + [ListenerSceneUnload(so)];
        modes := modes + [PlayModeChanged(instanceId)];
        found := found + [so];
      }
    }
    assert all[..|all|] == all;
  }

  /** How one more listener changes what the unsubscription loop has removed. */
  lemma UnsubscribeStep(ls: seq<Asset>, i: nat, instanceId: int, loads0: seq<Handler>, unloads0: seq<Handler>, modes0: seq<Handler>)
    requires i < |ls|
    ensures RemoveEach(loads0, LoadHandlers(ls[..i + 1])) == RemoveLast(RemoveEach(loads0, LoadHandlers(ls[..i])), ListenerSceneLoad(ls[i]))
    ensures RemoveEach(unloads0, UnloadHandlers(ls[..i + 1])) == RemoveLast(RemoveEach(unloads0, UnloadHandlers(ls[..i])), ListenerSceneUnload(ls[i]))
    ensures RemoveEach(modes0, Repeat(i + 1, PlayModeChanged(instanceId))) ==
              RemoveLast(RemoveEach(modes0, Repeat(i, PlayModeChanged(instanceId))), PlayModeChanged(instanceId))
  {
    assert ls[..i + 1] == ls[..i] + [ls[i]];
    assert LoadHandlers(ls[..i + 1]) == LoadHandlers(ls[..i]) + [ListenerSceneLoad(ls[i])];
    assert UnloadHandlers(ls[..i + 1]) == UnloadHandlers(ls[..i]) + [ListenerSceneUnload(ls[i])];
    RemoveEachAppend(loads0, LoadHandlers(ls[..i]), ListenerSceneLoad(ls[i]));
    RemoveEachAppend(unloads0, UnloadHandlers(ls[..i]), ListenerSceneUnload(ls[i]));
    RemoveEachAppend(modes0, Repeat(i, PlayModeChanged(instanceId)), PlayModeChanged(instanceId));
  }

  /** The unsubscription loop of OnDisable over the listener list `ls`. */
  method UnsubscribeListeners(ls: seq<Asset>, instanceId: int, loads0: seq<Handler>, unloads0: seq<Handler>, modes0: seq<Handler>)
    returns (loads: seq<Handler>, unloads: seq<Handler>, modes: seq<Handler>)
    ensures loads == RemoveEach(loads0, LoadHandlers(ls))
    ensures unloads == RemoveEach(unloads0, UnloadHandlers(ls))
    ensures modes == RemoveEach(modes0, Repeat(|ls|, PlayModeChanged(instanceId)))
  {
    loads, unloads, modes := loads0, unloads0, modes0;
    for i := 0 to |ls|
      invariant loads == RemoveEach(loads0, LoadHandlers(ls[..i]))
      invariant unloads == RemoveEach(unloads0, UnloadHandlers(ls[..i]))
      invariant modes == RemoveEach(modes0, Repeat(i, PlayModeChanged(instanceId)))
    {
      UnsubscribeStep(ls, i, instanceId, loads0, unloads0, modes0);
      loads := RemoveLast(loads, ListenerSceneLoad(ls[i]));
      unloads := RemoveLast(unloads, ListenerSceneUnload(ls[i]));
      modes := RemoveLast(modes, PlayModeChanged(instanceId));
    }
    assert ls[..|ls|] == ls;
  }

  class SceneLoadManager {
    /** This asset's instance id, which identifies its OnPlayModeStateChanged delegate. */
    const instanceId: int
    var listeners: seq<Asset>
    /** The calls made on listeners. */
    var calls: seq<ListenerCall>

    /** `listeners` is the serialized `_sceneLoadListeners`. */
    constructor (instanceId: int, listeners: seq<Asset>)
      ensures this.instanceId == instanceId && this.listeners == listeners && calls == []
    {
      this.instanceId := instanceId;
      this.listeners := listeners;
      calls := [];
    }

    /**
     * OnEnable over the objects `loaded` from Resources: loads the registry, then for every
     * registered ISceneLoadListener adds it to the list unless it is there already, and
     * subscribes its OnSceneLoad and OnSceneUnload and one more OnPlayModeStateChanged.
     */
    method OnEnable(registry: CommandRegistry.ScriptableObjectManager, events: Events, loaded: seq<Asset>)
      requires registry.Valid()
      modifies registry`objects, this`listeners, events`sceneLoaded, events`sceneUnloaded, events`playModeStateChanged
      ensures registry.Valid() && registry.objects == CommandRegistry.Loaded(old(registry.objects), loaded)
      ensures var found := OfType(registry.All(), SceneLoadListenerType);
                listeners == AppendNew(old(listeners), found)
                && events.sceneLoaded == old(events.sceneLoaded) + LoadHandlers(found)
                && events.sceneUnloaded == old(events.sceneUnloaded) + UnloadHandlers(found)
                && events.playModeStateChanged == old(events.playModeStateChanged) + Repeat(|found|, PlayModeChanged(instanceId))
    {
      registry.LoadAllScriptableObjects(loaded);
      var all := registry.All();
      var ls, loads, unloads, modes :=
        SubscribeListeners(all, instanceId, listeners, events.sceneLoaded, events.sceneUnloaded, events.playModeStateChanged);
      listeners := ls;
      events.sceneLoaded, events.sceneUnloaded, events.playModeStateChanged := loads, unloads, modes;
    }

    /** OnPlayModeStateChanged: on EnteredEditMode every listener is told the active scene unloads; other states do nothing. */
    method OnPlayModeStateChanged(state: PlayModeStateChange, activeScene: Scene)
      modifies this`calls
      ensures calls == old(calls) + if state == EnteredEditMode then FanOut(listeners, SceneUnloaded(activeScene)) else []
    {
      if state == EnteredEditMode {
        var told := Notify(listeners, SceneUnloaded(activeScene));
        calls := calls + told;
      }
    }

    /**
     * The engine raising playModeStateChanged with `state`: each registration of this manager's
     * delegate runs OnPlayModeStateChanged once, so every listener is told once per registration.
     */
    method PlayModeStateChanged(events: Events, state: PlayModeStateChange, activeScene: Scene)
      modifies this`calls
      ensures calls == old(calls) +
                if state == EnteredEditMode
                then Times(multiset(events.playModeStateChanged)[PlayModeChanged(instanceId)], FanOut(listeners, SceneUnloaded(activeScene)))
                else []
    {
      var hs := events.playModeStateChanged;
      var h := PlayModeChanged(instanceId);
      for i := 0 to |hs|
        invariant state == EnteredEditMode ==>
                    calls == old(calls) + Times(multiset(hs[..i])[h], FanOut(listeners, SceneUnloaded(activeScene)))
        invariant state != EnteredEditMode ==> calls == old(calls)
      {
        CountStep(hs, i, h);
        if hs[i] == h {
          TimesStep(old(calls), multiset(hs[..i])[h], FanOut(listeners, SceneUnloaded(activeScene)));
          OnPlayModeStateChanged(state, activeScene);
        }
      }
      assert hs[..|hs|] == hs;
    }

    /**
     * OnDisable: for each listener in the list removes one OnSceneLoad, one OnSceneUnload and one
     * OnPlayModeStateChanged registration, then empties the list and the registry.
     */
    method OnDisable(registry: CommandRegistry.ScriptableObjectManager, events: Events)
      modifies registry`objects, this`listeners, events`sceneLoaded, events`sceneUnloaded, events`playModeStateChanged
      ensures events.sceneLoaded == RemoveEach(old(events.sceneLoaded), LoadHandlers(old(listeners)))
      ensures events.sceneUnloaded == RemoveEach(old(events.sceneUnloaded), UnloadHandlers(old(listeners)))
      ensures events.playModeStateChanged ==
                RemoveEach(old(events.playModeStateChanged), Repeat(|old(listeners)|, PlayModeChanged(instanceId)))
      ensures listeners == [] && registry.Valid() && registry.All() == []
    {
      var loads, unloads, modes :=
        UnsubscribeListeners(listeners, instanceId, events.sceneLoaded, events.sceneUnloaded, events.playModeStateChanged);
      events.sceneLoaded, events.sceneUnloaded, events.playModeStateChanged := loads, unloads, modes;
      listeners := [];
      registry.Clear();
    }
  }
}
