/**
 * The static ScriptableObjectManager of Scripts/ScriptableObjectMaagement: a name-keyed registry
 * that keeps the FIRST object registered under a name, and a separate array of the saveable
 * objects that the last LoadAllScriptableObjects found. The static state is one object here.
 */
module ScriptsRegistry {
  import opened Engine

  /** The first object of `s` with the given name. */
  function FirstNamed(s: seq<Asset>, name: string): (r: Option<Asset>)
    ensures r.None? <==> forall i :: 0 <= i < |s| ==> s[i].name != name
    ensures r.Some? ==> exists i :: 0 <= i < |s| && s[i] == r.value && r.value.name == name
                          && forall j :: 0 <= j < i ==> s[j].name != name
  {
    if |s| == 0 then None
    else if s[0].name == name then Some(s[0])
    else
      var r := FirstNamed(s[1..], name);
      if r.Some? then
        var i :| 0 <= i < |s[1..]| && s[1..][i] == r.value && r.value.name == name
                 && forall j :: 0 <= j < i ==> s[1..][j].name != name;
        assert s[i + 1] == r.value;
        r
      else r
  }

  /** The first object of `s` with the given instance id: `FirstOrDefault(o => o.GetInstanceID() == id)`. */
  function FirstWithId(s: seq<Asset>, id: int): (r: Option<Asset>)
    ensures r.None? <==> forall i :: 0 <= i < |s| ==> s[i].instanceId != id
    ensures r.Some? ==> exists i :: 0 <= i < |s| && s[i] == r.value && r.value.instanceId == id
                          && forall j :: 0 <= j < i ==> s[j].instanceId != id
  {
    if |s| == 0 then None
    else if s[0].instanceId == id then Some(s[0])
    else
      var r := FirstWithId(s[1..], id);
      if r.Some? then
        var i :| 0 <= i < |s[1..]| && s[1..][i] == r.value && r.value.instanceId == id
                 && forall j :: 0 <= j < i ==> s[1..][j].instanceId != id;
        assert s[i + 1] == r.value;
        r
      else r
  }

  /** The registry after `AddScriptableObject(o.name, o)` for each `o` of `s` in order. */
  function Registered(d: Dictionary<string, Asset>, s: seq<Asset>): (r: Dictionary<string, Asset>)
    requires d.Valid()
    ensures r.Valid()
    decreases s
  {
    if |s| == 0 then d else Registered(d.TryAdd(s[0].name, s[0]), s[1..])
  }

  /**
   * Registering a sequence keeps every name already present, and adds each new name with
   * the first object of the sequence that carries it.
   */
  lemma {:induction false} RegisteredKeepsFirst(d: Dictionary<string, Asset>, s: seq<Asset>, name: string)
    requires d.Valid()
    ensures name in Registered(d, s).entries <==> name in d.entries || FirstNamed(s, name).Some?
    ensures name in Registered(d, s).entries ==>
              Registered(d, s).entries[name] == if name in d.entries then d.entries[name] else FirstNamed(s, name).value
    decreases s
  {
    if |s| > 0 {
      RegisteredKeepsFirst(d.TryAdd(s[0].name, s[0]), s[1..], name);
      if s[0].name != name {
        assert FirstNamed(s, name) == FirstNamed(s[1..], name);
      }
    }
  }

  class ScriptableObjectManager {
    var objects: Dictionary<string, Asset>
    /** SaveableScriptableObjects; None while it is null (before the first LoadAllScriptableObjects). */
    var saveableScriptableObjects: Option<seq<Asset>>

    ghost predicate Valid()
      reads this
    {
      objects.Valid()
    }

    constructor ()
      ensures Valid() && objects.entries == map[] && saveableScriptableObjects == None
    {
      objects := Dictionary.Empty();
      saveableScriptableObjects := None;
    }

    /** All: the registered objects in enumeration order, one per name. */
    function All(): (r: seq<Asset>)
      requires Valid()
      reads this
      ensures |r| == |objects.keys|
      ensures forall k :: k in objects.entries ==> objects.entries[k] in r
      ensures forall a :: a in r ==> exists k :: k in objects.entries && objects.entries[k] == a
    {
      ValuesCoverEntries(objects);
      objects.Values()
    }

    /** Clear empties the name map only; SaveableScriptableObjects keeps its value. */
    method Clear()
      modifies this`objects
      ensures Valid() && objects.entries == map[] && All() == []
      ensures saveableScriptableObjects == old(saveableScriptableObjects)
    {
      objects := Dictionary.Empty();
    }

    /** GetScriptableObjectByName(name): the object registered under `name`, or KeyNotFoundException. */
    function GetScriptableObjectByName(name: string): (r: Result<Asset>)
      reads this
      ensures r.Ok? <==> name in objects.entries
      ensures r.Ok? ==> r.value == objects.entries[name]
      ensures r.Err? ==> r.error == KeyNotFound
    {
      if name in objects.entries then Ok(objects.entries[name]) else Err(KeyNotFound)
    }

    /** GetScriptableObjectByName<T>(name): as above, and KeyNotFoundException also when the object is not a `t`. */
    function GetScriptableObjectByNameAs(name: string, t: string): (r: Result<Asset>)
      reads this
      ensures r.Ok? <==> GetScriptableObjectByName(name).Ok? && IsA(GetScriptableObjectByName(name).value, t)
      ensures r.Ok? ==> r == GetScriptableObjectByName(name)
      ensures r.Err? ==> r.error == KeyNotFound
    {
      if name in objects.entries && IsA(objects.entries[name], t) then Ok(objects.entries[name]) else Err(KeyNotFound)
    }

    /** GetScriptableObjectByID(id): the first registered object with that instance id, or null. */
    function GetScriptableObjectByID(id: int): (r: Option<Asset>)
      requires Valid()
      reads this
      ensures r.None? <==> forall k :: k in objects.entries ==> objects.entries[k].instanceId != id
      ensures r.Some? ==> r.value.instanceId == id && exists k :: k in objects.entries && objects.entries[k] == r.value
      ensures r.Some? ==> exists i :: 0 <= i < |All()| && All()[i] == r.value
                            && forall j :: 0 <= j < i ==> All()[j].instanceId != id
    {
      FirstWithId(All(), id)
    }

    /**
     * GetScriptableObjectByID<T>(id): the first registered object with that id cast with `as T`,
     * so null when it is not a `t`, even if a later object with the same id is one.
     */
    function GetScriptableObjectByIDAs(id: int, t: string): (r: Option<Asset>)
      requires Valid()
      reads this
      ensures r.Some? <==> GetScriptableObjectByID(id).Some? && IsA(GetScriptableObjectByID(id).value, t)
      ensures r.Some? ==> r == GetScriptableObjectByID(id)
    {
      var first := GetScriptableObjectByID(id);
      if first.Some? && IsA(first.value, t) then first else None
    }

    /** AddScriptableObject(key, o): inserts when `key` is absent; an existing key keeps its first object. */
    method AddScriptableObject(key: string, o: Asset)
      requires Valid()
      modifies this`objects
      ensures Valid()
      ensures objects == old(objects).TryAdd(key, o)
      ensures GetScriptableObjectByName(key) ==
                if key in old(objects.entries) then Ok(old(objects.entries[key])) else Ok(o)
      ensures forall k :: k != key ==> GetScriptableObjectByName(k) == old(GetScriptableObjectByName(k))
    {
      if key in objects.entries {
        // the source logs an error and keeps the registered object
      } else {
        objects := objects.TryAdd(key, o);
      }
    }

    /** GetScriptableObject<T>(key): the object under `key` cast with `as T`, or null when the key is absent. */
    function GetScriptableObject(key: string, t: string): (r: Option<Asset>)
      reads this
      ensures key !in objects.entries ==> r == None
      ensures r.Some? <==> key in objects.entries && IsA(objects.entries[key], t)
      ensures r.Some? ==> r.value == objects.entries[key]
    {
      if key in objects.entries && IsA(objects.entries[key], t) then Some(objects.entries[key]) else None
    }

    /** GetSaveableScriptableObjects: the ISaveable members of SaveableScriptableObjects in order; a null array throws. */
    method GetSaveableScriptableObjects() returns (r: Result<seq<Asset>>)
      ensures saveableScriptableObjects.None? ==> r == Err(NullReference)
      ensures saveableScriptableObjects.Some? ==> r == Ok(OfType(saveableScriptableObjects.value, SaveableType))
    {
      if saveableScriptableObjects.None? {
        return Err(NullReference);
      }
      var all := saveableScriptableObjects.value;
      var list := [];
      for i := 0 to |all|
        invariant list == OfType(all[..i], SaveableType)
      {
        assert all[..i + 1] == all[..i] + [all[i]];
        OfTypeAppend(all[..i], all[i], SaveableType);
        if IsA(all[i], SaveableType) {
          list := list + [all[i]];
        }
        // else: the source logs an error and skips the object
      }
      assert all[..|all|] == all;
      return Ok(list);
    }

    /**
     * LoadAllScriptableObjects over the objects `loaded` from Resources: registers each by its
     * name (first wins), and sets SaveableScriptableObjects to every ISaveable among `loaded`,
     * including those whose name was already taken.
     */
    method LoadAllScriptableObjects(loaded: seq<Asset>)
      requires Valid()
      modifies this`objects, this`saveableScriptableObjects
      ensures Valid()
      ensures objects == Registered(old(objects), loaded)
      ensures saveableScriptableObjects == Some(OfType(loaded, SaveableType))
    {
      var saveables := [];
      for i := 0 to |loaded|
        invariant Valid()
        invariant Registered(objects, loaded[i..]) == Registered(old(objects), loaded)
        invariant saveables == OfType(loaded[..i], SaveableType)
      {
        assert loaded[i..][1..] == loaded[i + 1..];
        assert loaded[..i + 1] == loaded[..i] + [loaded[i]];
        OfTypeAppend(loaded[..i], loaded[i], SaveableType);
        AddScriptableObject(loaded[i].name, loaded[i]);
        if IsA(loaded[i], SaveableType) {
          saveables := saveables + [loaded[i]];
        }
      }
      assert loaded[..|loaded|] == loaded;
      saveableScriptableObjects := Some(saveables);
    }
  }
}
