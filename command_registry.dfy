/**
 * The static ScriptableObjectManager of the Command tree: a name-keyed registry in which a
 * later registration under a name OVERWRITES the earlier one. Command/SceneLoadManager.cs
 * embeds a second copy of this class with the same members and the same bodies; this module
 * models both. The static state is one object here.
 */
module CommandRegistry {
  import opened Engine

  /** The last object of `s` with the given name. */
  function LastNamed(s: seq<Asset>, name: string): (r: Option<Asset>)
    ensures r.None? <==> forall i :: 0 <= i < |s| ==> s[i].name != name
    ensures r.Some? ==> exists i :: 0 <= i < |s| && s[i] == r.value && r.value.name == name
                          && forall j :: i < j < |s| ==> s[j].name != name
  {
    if |s| == 0 then None
    else
      var r := LastNamed(s[1..], name);
      if r.Some? then
        var i :| 0 <= i < |s| - 1 && s[1..][i] == r.value && r.value.name == name
                 && forall j :: i < j < |s| - 1 ==> s[1..][j].name != name;
        assert s[i + 1] == r.value;
        r
      else if s[0].name == name then
        assert forall j :: 0 < j < |s| ==> s[1..][j - 1] == s[j];
        Some(s[0])
      else None
  }

  /** The registry after `AddScriptableObject(o.name, o)` for each `o` of `s` in order. */
  function Loaded(d: Dictionary<string, Asset>, s: seq<Asset>): (r: Dictionary<string, Asset>)
    requires d.Valid()
    ensures r.Valid()
    decreases s
  {
    if |s| == 0 then d else Loaded(d.Put(s[0].name, s[0]), s[1..])
  }

  /**
   * Loading a sequence registers each of its names with the LAST object of the sequence that
   * carries it; names the sequence does not carry keep their earlier object.
   */
  lemma {:induction false} LoadedKeepsLast(d: Dictionary<string, Asset>, s: seq<Asset>, name: string)
    requires d.Valid()
    ensures name in Loaded(d, s).entries <==> name in d.entries || LastNamed(s, name).Some?
    ensures name in Loaded(d, s).entries ==>
              Loaded(d, s).entries[name] == if LastNamed(s, name).Some? then LastNamed(s, name).value else d.entries[name]
    decreases s
  {
    if |s| > 0 {
      LoadedKeepsLast(d.Put(s[0].name, s[0]), s[1..], name);
    }
  }

  class ScriptableObjectManager {
    var objects: Dictionary<string, Asset>

    ghost predicate Valid()
      reads this
    {
      objects.Valid()
    }

    constructor ()
      ensures Valid() && objects.entries == map[]
    {
      objects := Dictionary.Empty();
    }

    /** All: the registered objects in enumeration order, one per name. */
    function All(): (r: seq<Asset>)
      requires Valid()
      reads this
      ensures |r| == |objects.keys|
      ensures forall k :: k in objects.entries ==> objects.entries[k] in r
      ensures forall a :: a in r ==> exists k :: k in objects.entries && objects.entries[k] == a
    {
      ValuesCoverEntries(objects);
      objects.Values()
    }

    method Clear()
      modifies this`objects
      ensures Valid() && objects.entries == map[] && All() == []
    {
      objects := Dictionary.Empty();
    }

    /** AddScriptableObject(key, o): an existing key is overwritten in place, a new key is added at the end. */
    method AddScriptableObject(key: string, o: Asset)
      requires Valid()
      modifies this`objects
      ensures Valid()
      ensures objects == old(objects).Put(key, o)
      ensures key in objects.entries && objects.entries[key] == o
      ensures forall k :: k != key ==> (k in objects.entries <==> k in old(objects.entries))
      ensures forall k :: k != key && k in objects.entries ==> objects.entries[k] == old(objects.entries[k])
    {
      if key in objects.entries {
        objects := objects.Put(key, o);
      } else {
        objects := objects.TryAdd(key, o);
      }
    }

    /** GetScriptableObject<T>(key): the object under `key` cast with `as T`; null when the key is absent or the object is not a `t`. */
    function GetScriptableObject(key: string, t: string): (r: Option<Asset>)
      reads this
      ensures r.Some? <==> key in objects.entries && IsA(objects.entries[key], t)
      ensures r.Some? ==> r.value == objects.entries[key]
    {
      if key in objects.entries && IsA(objects.entries[key], t) then Some(objects.entries[key]) else None
    }

    /** LoadAllScriptableObjects over the objects `loaded` from Resources: registers each by its name, the last one winning. */
    method LoadAllScriptableObjects(loaded: seq<Asset>)
      requires Valid()
      modifies this`objects
      ensures Valid()
      ensures objects == Loaded(old(objects), loaded)
    {
      for i := 0 to |loaded|
        invariant Valid()
        invariant Loaded(objects, loaded[i..]) == Loaded(old(objects), loaded)
      {
        assert loaded[i..][1..] == loaded[i + 1..];
        AddScriptableObject(loaded[i].name, loaded[i]);
      }
    }
  }
}
