/**
 * SaveDataManager: save slots keyed by an integer, each a map from a saveable's unique
 * identifier to the data container it produced. Saving collects a container from every
 * available saveable into the current slot and writes the slot to `save_<slotKey>.json`;
 * loading reads that file back and hands each saveable the container stored under its id.
 *
 * The file system is a map from paths to contents, the serializer an `encode`/`decode` pair
 * whose decoding may fail, and the saveables' own methods are parameters: `identify`
 * (GetUniqueIdentifier), `snapshot` (GetSaveData) and `fails` (whether LoadSaveData throws).
 * Calls made on the saveables and the two static events are recorded in a trace.
 */
module SaveData {
  import opened Engine
  import ScriptsRegistry

  // ---------------------------------------------------------------------------------------
  // The save file's path

  /** The decimal digit for `d`. */
  function DigitChar(d: nat): (c: char)
    requires d < 10
    ensures '0' <= c <= '9' && c as int - '0' as int == d
  {
    ('0' as int + d) as char
  }

  /** `n.ToString()` for a non-negative `n`: its decimal digits, most significant first. */
  function NatString(n: nat): (r: string)
    ensures |r| > 0
    ensures forall i :: 0 <= i < |r| ==> '0' <= r[i] <= '9'
  {
    if n < 10 then [DigitChar(n)] else NatString(n / 10) + [DigitChar(n % 10)]
  }

  /** `n.ToString()`: a leading '-' for a negative `n`, then the digits of its magnitude. */
  function IntString(n: int): string
  {
    if n < 0 then "-" + NatString(-n) else NatString(n)
  }

  /** The number a string of decimal digits denotes. */
  function ParseNat(s: string): nat
    requires forall i :: 0 <= i < |s| ==> '0' <= s[i] <= '9'
  {
    if |s| == 0 then 0 else ParseNat(s[..|s| - 1]) * 10 + (s[|s| - 1] as int - '0' as int)
  }

  lemma {:induction false} ParseNatString(n: nat)
    ensures ParseNat(NatString(n)) == n
  {
    if n >= 10 {
      var s := NatString(n);
      assert s == NatString(n / 10) + [DigitChar(n % 10)];
      assert s[..|s| - 1] == NatString(n / 10);
      ParseNatString(n / 10);
    }
  }

  /** A printed integer starts with '-' exactly when it is negative. */
  lemma IntStringSign(n: int)
    ensures |IntString(n)| > 0 && (IntString(n)[0] == '-' <==> n < 0)
  {
  }

  lemma NatStringInjective(a: nat, b: nat)
    requires NatString(a) == NatString(b)
    ensures a == b
  {
    ParseNatString(a);
    ParseNatString(b);
  }

  /** Distinct integers print differently. */
  lemma IntStringInjective(a: int, b: int)
    requires IntString(a) == IntString(b)
    ensures a == b
  {
    IntStringSign(a);
    IntStringSign(b);
    if a < 0 && b < 0 {
      assert NatString(-a) == IntString(a)[1..];
      assert NatString(-b) == IntString(b)[1..];
      NatStringInjective(-a, -b);
    } else if a >= 0 && b >= 0 {
      NatStringInjective(a, b);
    }
  }

  /** The directory part Path.Combine puts in front of a relative file name ('/' separators). */
  function Directory(dir: string): string
  {
    if dir == "" then "" else if dir[|dir| - 1] == '/' then dir else dir + "/"
  }

  /** Path.Combine(dir, file) for a relative `file`. */
  function Combine(dir: string, file: string): (r: string)
    ensures r == Directory(dir) + file
  {
    if dir == "" then file else if dir[|dir| - 1] == '/' then dir + file else dir + "/" + file
  }

  /** The path SaveAsync writes and LoadAsync reads: `Path.Combine(dataPath, "save_" + slotKey + ".json")`. */
  function SlotPath(dataPath: string, slotKey: int): string
  {
    Combine(dataPath, "save_" + IntString(slotKey) + ".json")
  }

  /** Different slots are saved to different files. */
  lemma SlotPathInjective(dataPath: string, k1: int, k2: int)
    requires SlotPath(dataPath, k1) == SlotPath(dataPath, k2)
    ensures k1 == k2
  {
    var d := Directory(dataPath);
    var x1, x2 := IntString(k1), IntString(k2);
    var p := SlotPath(dataPath, k1);
    assert p == d + "save_" + x1 + ".json" == d + "save_" + x2 + ".json";
    assert |x1| == |x2|;
    var start := |d| + 5;
    assert x1 == p[start..start + |x1|];
    assert x2 == p[start..start + |x2|];
    IntStringInjective(k1, k2);
  }

  // ---------------------------------------------------------------------------------------
  // Saving

  /** A call on a saveable, or an invocation of one of the two static events. */
  datatype SaveCall<C> =
    | LoadSaveData(target: Asset, data: C, threw: bool)
    | OnSave(target: Asset)
    | OnLoad(target: Asset)
    | DataSaved
    | DataLoaded

  /** The last saveable of `ss` with the given id. */
  function LastWithId(ss: seq<Asset>, identify: Asset -> string, id: string): (r: Option<Asset>)
    ensures r.None? <==> forall i :: 0 <= i < |ss| ==> identify(ss[i]) != id
    ensures r.Some? ==> exists i :: 0 <= i < |ss| && ss[i] == r.value && identify(r.value) == id
                          && forall j :: i < j < |ss| ==> identify(ss[j]) != id
  {
    if |ss| == 0 then None
    else
      var r := LastWithId(ss[1..], identify, id);
      if r.Some? then
        var i :| 0 <= i < |ss| - 1 && ss[1..][i] == r.value && identify(r.value) == id
                 && forall j :: i < j < |ss| - 1 ==> identify(ss[1..][j]) != id;
        assert ss[i + 1] == r.value;
        r
      else if identify(ss[0]) == id then
        assert forall j :: 0 < j < |ss| ==> ss[1..][j - 1] == ss[j];
        Some(ss[0])
      else None
  }

  /** The slot after `slot[id] = container` for each saveable of `ss` in order. */
  function Collected<C>(slot: map<string, C>, ss: seq<Asset>, identify: Asset -> string, snapshot: Asset -> C): map<string, C>
    decreases ss
  {
    if |ss| == 0 then slot else Collected(slot[identify(ss[0]) := snapshot(ss[0])], ss[1..], identify, snapshot)
  }

  /**
   * Saving stores under each id the container of the LAST saveable with that id; ids that no
   * saveable carries now keep the container an earlier save stored.
   */
  lemma {:induction false} CollectedLastWins<C>(slot: map<string, C>, ss: seq<Asset>, identify: Asset -> string, snapshot: Asset -> C, id: string)
    ensures id in Collected(slot, ss, identify, snapshot) <==> id in slot || LastWithId(ss, identify, id).Some?
    ensures id in Collected(slot, ss, identify, snapshot) ==>
              Collected(slot, ss, identify, snapshot)[id] ==
                if LastWithId(ss, identify, id).Some? then snapshot(LastWithId(ss, identify, id).value) else slot[id]
    decreases ss
  {
    if |ss| > 0 {
      CollectedLastWins(slot[identify(ss[0]) := snapshot(ss[0])], ss[1..], identify, snapshot, id);
    }
  }

  function OnSaves<C>(ss: seq<Asset>): (r: seq<SaveCall<C>>)
    ensures |r| == |ss| && forall k :: 0 <= k < |ss| ==> r[k] == OnSave(ss[k])
  {
    seq(|ss|, k requires 0 <= k < |ss| => OnSave(ss[k]))
  }

  function OnLoads<C>(ss: seq<Asset>): (r: seq<SaveCall<C>>)
    ensures |r| == |ss| && forall k :: 0 <= k < |ss| ==> r[k] == OnLoad(ss[k])
  {
    seq(|ss|, k requires 0 <= k < |ss| => OnLoad(ss[k]))
  }

  // ---------------------------------------------------------------------------------------
  // Loading

  /** What DeserializeValue<SaveDataSet> gives: an exception, a null set, or a set of containers. */
  datatype Decoded<C> = DecodeError | NullDataSet | DataSet(containers: map<string, C>)

  /** The (saveable, container) pairs LoadAsync applies: the saveables of `ss` whose id the set holds, in order. */
  function Loads<C>(ss: seq<Asset>, containers: map<string, C>, identify: Asset -> string): seq<(Asset, C)>
  {
    if |ss| == 0 then []
    else
      var last := ss[|ss| - 1];
      Loads(ss[..|ss| - 1], containers, identify)
        + (if identify(last) in containers then [(last, containers[identify(last)])] else [])
  }

  /** A saveable is handed a container exactly when its id is present, and then the one stored under its id. */
  lemma {:induction false} LoadsPresentIds<C>(ss: seq<Asset>, containers: map<string, C>, identify: Asset -> string, t: Asset, c: C)
    ensures (t, c) in Loads(ss, containers, identify) <==>
              t in ss && identify(t) in containers && c == containers[identify(t)]
  {
    if |ss| > 0 {
      var init := ss[..|ss| - 1];
      assert ss == init + [ss[|ss| - 1]];
      LoadsPresentIds(init, containers, identify, t, c);
    }
  }

  /** When every saveable's id is present, each of them is handed the container under its id, in order. */
  lemma {:induction false} LoadsAllPresent<C>(ss: seq<Asset>, containers: map<string, C>, identify: Asset -> string)
    requires forall k :: 0 <= k < |ss| ==> identify(ss[k]) in containers
    ensures Loads(ss, containers, identify) == seq(|ss|, k requires 0 <= k < |ss| => (ss[k], containers[identify(ss[k])]))
  {
    if |ss| > 0 {
      var init := ss[..|ss| - 1];
      LoadsAllPresent(init, containers, identify);
    }
  }

  /** The LoadSaveData calls for `pairs`; an exception thrown by one is caught and recorded, never stopping the rest. */
  function Applied<C>(pairs: seq<(Asset, C)>, fails: (Asset, C) -> bool): (r: seq<SaveCall<C>>)
    ensures |r| == |pairs|
    ensures forall k :: 0 <= k < |pairs| ==>
              r[k] == LoadSaveData(pairs[k].0, pairs[k].1, fails(pairs[k].0, pairs[k].1))
  {
    seq(|pairs|, k requires 0 <= k < |pairs| => LoadSaveData(pairs[k].0, pairs[k].1, fails(pairs[k].0, pairs[k].1)))
  }

  /** The collecting `foreach` of SaveAsync: `dataContainers[saveable.GetUniqueIdentifier()] = saveable.GetSaveData()`. */
  method CollectContainers<C>(slot: map<string, C>, ss: seq<Asset>, identify: Asset -> string, snapshot: Asset -> C)
    returns (r: map<string, C>)
    ensures r == Collected(slot, ss, identify, snapshot)
  {
    r := slot;
    for i := 0 to |ss|
      invariant Collected(r, ss[i..], identify, snapshot) == Collected(slot, ss, identify, snapshot)
    {
      assert ss[i..][1..] == ss[i + 1..];
      r := r[identify(ss[i]) := snapshot(ss[i])];
    }
  }

  /** The `foreach (var saveable in availableSaveables) saveable.OnSave()` loop. */
  method NotifySaved<C>(ss: seq<Asset>) returns (r: seq<SaveCall<C>>)
    ensures r == OnSaves(ss)
  {
    r := [];
    for i := 0 to |ss|
      invariant r == OnSaves(ss[..i])
    {
      assert OnSaves<C>(ss[..i + 1]) == OnSaves(ss[..i]) + [OnSave(ss[i])];
      r := r + [OnSave(ss[i])];
    }
    assert ss[..|ss|] == ss;
  }

  /** The applying `foreach` of LoadAsync: LoadSaveData for each saveable whose id is present, each exception caught. */
  method ApplyLoads<C>(ss: seq<Asset>, containers: map<string, C>, identify: Asset -> string, fails: (Asset, C) -> bool)
    returns (r: seq<SaveCall<C>>)
    ensures r == Applied(Loads(ss, containers, identify), fails)
  {
    r := [];
    for i := 0 to |ss|
      invariant r == Applied(Loads(ss[..i], containers, identify), fails)
    {
      assert ss[..i + 1][..i] == ss[..i];
      var id := identify(ss[i]);
      if id in containers {
        var threw := fails(ss[i], containers[id]);
        r := r + [LoadSaveData(ss[i], containers[id], threw)];
      }
      assert Applied(Loads(ss[..i + 1], containers, identify), fails) ==
             Applied(Loads(ss[..i], containers, identify), fails)
               + (if id in containers then [LoadSaveData(ss[i], containers[id], fails(ss[i], containers[id]))] else []);
    }
    assert ss[..|ss|] == ss;
  }

  /** The `foreach (var saveable in availableSaveables) saveable.OnLoad()` loop. */
  method NotifyLoaded<C>(ss: seq<Asset>) returns (r: seq<SaveCall<C>>)
    ensures r == OnLoads(ss)
  {
    r := [];
    for i := 0 to |ss|
      invariant r == OnLoads(ss[..i])
    {
      assert OnLoads<C>(ss[..i + 1]) == OnLoads(ss[..i]) + [OnLoad(ss[i])];
      r := r + [OnLoad(ss[i])];
    }
    assert ss[..|ss|] == ss;
  }

  datatype SaveOutcome = Saved | SaveThrew(error: Exception)

  datatype LoadOutcome = NoSaveFile | DecodeFailed | LoadThrew(error: Exception) | Loaded

  /** `File.*TextAsync` and `File.Exists` over a map from paths to contents. */
  class FileStore {
    var files: map<string, string>

    constructor ()
      ensures files == map[]
    {
      files := map[];
    }
  }

  class SaveDataManager<C> {
    /** availableSaveables; None while it is null. */
    var availableSaveables: Option<seq<Asset>>
    const slotKey: int
    /** Application.persistentDataPath. */
    const dataPath: string
    var saveSlots: map<int, map<string, C>>
    var calls: seq<SaveCall<C>>

    constructor (dataPath: string, slotKey: int, saveables: Option<seq<Asset>>)
      ensures this.dataPath == dataPath && this.slotKey == slotKey && availableSaveables == saveables
      ensures saveSlots == map[] && calls == []
    {
      this.dataPath := dataPath;
      this.slotKey := slotKey;
      availableSaveables := saveables;
      saveSlots := map[];
      calls := [];
    }

    /** The slot SaveAsync starts from: the existing SaveDataSet for `slotKey`, or a new empty one. */
    function CurrentSlot(): (slot: map<string, C>)
      reads this
      ensures slotKey in saveSlots ==> slot == saveSlots[slotKey]
      ensures slotKey !in saveSlots ==> slot == map[]
    {
      if slotKey in saveSlots then saveSlots[slotKey] else map[]
    }

    /**
     * SaveAsync: gets or creates the slot, stores each saveable's container under its id, writes
     * the encoded slot, calls OnSave on every saveable and raises OnDataSaved. A null saveable
     * array throws once the slot exists.
     */
    method SaveAsync(fs: FileStore, identify: Asset -> string, snapshot: Asset -> C, encode: map<string, C> -> string)
      returns (outcome: SaveOutcome)
      modifies this`saveSlots, this`calls, fs`files
      ensures availableSaveables.None? ==>
                outcome == SaveThrew(NullReference) && saveSlots == old(saveSlots)[slotKey := old(CurrentSlot())]
                && fs.files == old(fs.files) && calls == old(calls)
      ensures availableSaveables.Some? ==>
                outcome == Saved
                && saveSlots == old(saveSlots)[slotKey := Collected(old(CurrentSlot()), availableSaveables.value, identify, snapshot)]
                && fs.files == old(fs.files)[SlotPath(dataPath, slotKey) := encode(saveSlots[slotKey])]
                && calls == old(calls) + OnSaves(availableSaveables.value) + [DataSaved]
    {
      var slot := CurrentSlot();
      saveSlots := saveSlots[slotKey := slot];
      if availableSaveables.None? {
        return SaveThrew(NullReference);
      }
      var ss := availableSaveables.value;
      slot := CollectContainers(slot, ss, identify, snapshot);
      saveSlots := saveSlots[slotKey := slot];
      fs.files := fs.files[SlotPath(dataPath, slotKey) := encode(slot)];
      var saved := NotifySaved(ss);
      calls := calls + saved + [DataSaved];
      return Saved;
    }

    /**
     * LoadAsync: without a save file, or when decoding throws, no saveable is touched. Otherwise
     * every saveable whose id the set holds gets LoadSaveData with that container, each one's
     * exception being caught; then every saveable gets OnLoad and OnDataLoaded is raised.
     * A null saveable array or a null set (with some saveable to look up) throws instead.
     */
    method LoadAsync(fs: FileStore, identify: Asset -> string, decode: string -> Decoded<C>, fails: (Asset, C) -> bool)
      returns (outcome: LoadOutcome)
      modifies this`calls
      ensures saveSlots == old(saveSlots) && availableSaveables == old(availableSaveables)
      ensures SlotPath(dataPath, slotKey) !in fs.files ==> outcome == NoSaveFile && calls == old(calls)
      ensures SlotPath(dataPath, slotKey) in fs.files ==>
                var decoded := decode(fs.files[SlotPath(dataPath, slotKey)]);
                if decoded.DecodeError? then outcome == DecodeFailed && calls == old(calls)
                else if availableSaveables.None? then outcome == LoadThrew(NullReference) && calls == old(calls)
                else if decoded.NullDataSet? && |availableSaveables.value| > 0 then
                  outcome == LoadThrew(NullReference) && calls == old(calls)
                else
                  var ss := availableSaveables.value;
                  var containers := if decoded.DataSet? then decoded.containers else map[];
                  outcome == Loaded
                  && calls == old(calls) + Applied(Loads(ss, containers, identify), fails) + OnLoads(ss) + [DataLoaded]
    {
      var path := SlotPath(dataPath, slotKey);
      if path !in fs.files {
        return NoSaveFile;
      }
      var decoded := decode(fs.files[path]);
      if decoded.DecodeError? {
        return DecodeFailed;
      }
      if availableSaveables.None? {
        return LoadThrew(NullReference);
      }
      var ss := availableSaveables.value;
      if decoded.NullDataSet? && |ss| > 0 {
        return LoadThrew(NullReference);
      }
      var containers := if decoded.DataSet? then decoded.containers else map[];
      var applied := ApplyLoads(ss, containers, identify, fails);
      var loaded := NotifyLoaded(ss);
      calls := calls + applied + loaded + [DataLoaded];
      return Loaded;
    }

    /** LocateSaveables: the registry's saveables become the available ones; a null registry array throws. */
    method LocateSaveables(registry: ScriptsRegistry.ScriptableObjectManager) returns (error: Option<Exception>)
      modifies this`availableSaveables
      ensures registry.saveableScriptableObjects.None? ==>
                error == Some(NullReference) && availableSaveables == old(availableSaveables)
      ensures registry.saveableScriptableObjects.Some? ==>
                error == None && availableSaveables == Some(OfType(registry.saveableScriptableObjects.value, SaveableType))
    {
      var found := registry.GetSaveableScriptableObjects();
      if found.Err? {
        return Some(found.error);
      }
      availableSaveables := Some(found.value);
      return None;
    }

    method OnStopwatchStart(scene: Scene, registry: ScriptsRegistry.ScriptableObjectManager) returns (error: Option<Exception>)
      modifies this`availableSaveables
      ensures registry.saveableScriptableObjects.None? ==>
                error == Some(NullReference) && availableSaveables == old(availableSaveables)
      ensures registry.saveableScriptableObjects.Some? ==>
                error == None && availableSaveables == Some(OfType(registry.saveableScriptableObjects.value, SaveableType))
    {
      error := LocateSaveables(registry);
    }

    method OnStopwatchStop(scene: Scene)
      modifies this`availableSaveables
      ensures availableSaveables == None
    {
      availableSaveables := None;
    }
  }

  /** Saveables with pairwise different ids. */
  predicate DistinctIds(ss: seq<Asset>, identify: Asset -> string)
  {
    forall i, j :: 0 <= i < j < |ss| ==> identify(ss[i]) != identify(ss[j])
  }

  /** Each saveable paired with its own container. */
  function Snapshots<C>(ss: seq<Asset>, snapshot: Asset -> C): (r: seq<(Asset, C)>)
    ensures |r| == |ss| && forall k :: 0 <= k < |ss| ==> r[k] == (ss[k], snapshot(ss[k]))
  {
    seq(|ss|, k requires 0 <= k < |ss| => (ss[k], snapshot(ss[k])))
  }

  /**
   * Into an empty slot, saveables with distinct ids each store their own container, and a load
   * of that slot hands every saveable exactly the container it saved.
   */
  lemma SaveLoadRoundTrip<C>(ss: seq<Asset>, identify: Asset -> string, snapshot: Asset -> C)
    requires DistinctIds(ss, identify)
    ensures Loads(ss, Collected(map[], ss, identify, snapshot), identify) == Snapshots(ss, snapshot)
  {
    var slot := Collected(map[], ss, identify, snapshot);
    forall k | 0 <= k < |ss|
      ensures identify(ss[k]) in slot && slot[identify(ss[k])] == snapshot(ss[k])
    {
      var id := identify(ss[k]);
      CollectedLastWins(map[], ss, identify, snapshot, id);
      var last := LastWithId(ss, identify, id);
      var i :| 0 <= i < |ss| && ss[i] == last.value && identify(last.value) == id
               && forall j :: i < j < |ss| ==> identify(ss[j]) != id;
      assert i == k;
    }
    LoadsAllPresent(ss, slot, identify);
  }

  /**
   * A save followed by a load of the same slot, on fresh objects, with a serializer whose
   * decoding inverts its encoding: both complete, and the load hands every saveable (distinct
   * ids) the container it saved.
   */
  method SaveThenLoad<C>(dataPath: string, slotKey: int, ss: seq<Asset>, identify: Asset -> string, snapshot: Asset -> C,
                         encode: map<string, C> -> string, decode: string -> Decoded<C>, fails: (Asset, C) -> bool)
    returns (saved: SaveOutcome, loaded: LoadOutcome, calls: seq<SaveCall<C>>)
    requires forall m :: decode(encode(m)) == DataSet(m)
    requires DistinctIds(ss, identify)
    ensures saved == Saved && loaded == Loaded
    ensures calls == OnSaves(ss) + [DataSaved] + Applied(Snapshots(ss, snapshot), fails) + OnLoads(ss) + [DataLoaded]
  {
    var fs := new FileStore();
    var manager := new SaveDataManager<C>(dataPath, slotKey, Some(ss));
    saved := manager.SaveAsync(fs, identify, snapshot, encode);
    var slot := Collected(map[], ss, identify, snapshot);
    assert manager.availableSaveables == Some(ss);
    assert manager.calls == OnSaves(ss) + [DataSaved];
    assert fs.files[SlotPath(dataPath, slotKey)] == encode(slot);
    assert decode(encode(slot)) == DataSet(slot);
    SaveLoadRoundTrip(ss, identify, snapshot);
    loaded := manager.LoadAsync(fs, identify, decode, fails);
    calls := manager.calls;
  }
}
