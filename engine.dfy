/**
 * What the core receives from the game engine and the .NET runtime, as plain values:
 * object identities, assets with the types they implement, scenes, the exceptions the
 * core raises or catches, and the Dictionary type with its enumeration order.
 */
module Engine {

  datatype Option<T> = None | Some(value: T)

  /** The .NET exceptions that the core throws, catches or lets propagate. */
  datatype Exception = NullReference | ArgumentNull | KeyNotFound | InvalidCast | OperationCanceled | Failure

  datatype Result<T> = Ok(value: T) | Err(error: Exception)

  /** A UnityEngine.Object: its instance id (its identity) and its display name. */
  datatype Obj = Obj(instanceId: int, name: string)

  /** A ScriptableObject asset: instance id, name, and the names of the classes and interfaces it implements. */
  datatype Asset = Asset(instanceId: int, name: string, types: set<string>)

  const SaveableType: string := "ISaveable"
  const SceneLoadListenerType: string := "ISceneLoadListener"

  /** The C# type test `a is T`. */
  predicate IsA(a: Asset, t: string)
  {
    t in a.types
  }

  /** The elements of `s` that are instances of `t`, in their order in `s` (a `foreach` with an `is` test). */
  function OfType(s: seq<Asset>, t: string): (r: seq<Asset>)
    ensures |r| <= |s|
  {
    if |s| == 0 then []
    else (if IsA(s[0], t) then [s[0]] else []) + OfType(s[1..], t)
  }

  /** The instances of `t` in `s` are exactly the elements of `s` that are a `t`. */
  lemma {:induction false} OfTypeMembers(s: seq<Asset>, t: string, a: Asset)
    ensures a in OfType(s, t) <==> a in s && IsA(a, t)
  {
    if |s| > 0 {
      OfTypeMembers(s[1..], t, a);
      assert a in s <==> a == s[0] || a in s[1..];
    }
  }

  lemma {:induction false} OfTypeAppend(s: seq<Asset>, a: Asset, t: string)
    ensures OfType(s + [a], t) == OfType(s, t) + (if IsA(a, t) then [a] else [])
  {
    if |s| == 0 {
      assert s + [a] == [a];
      assert OfType([a], t) == (if IsA(a, t) then [a] else []) + OfType([], t);
    } else {
      var head := if IsA(s[0], t) then [s[0]] else [];
      var last := if IsA(a, t) then [a] else [];
      assert (s + [a])[0] == s[0];
      assert (s + [a])[1..] == s[1..] + [a];
      assert OfType(s + [a], t) == head + OfType(s[1..] + [a], t);
      OfTypeAppend(s[1..], a, t);
      assert OfType(s[1..] + [a], t) == OfType(s[1..], t) + last;
      assert head + (OfType(s[1..], t) + last) == (head + OfType(s[1..], t)) + last;
    }
  }

  /** The instances of `t` among the first `i + 1` objects. */
  lemma OfTypePrefix(all: seq<Asset>, i: nat, t: string)
    requires i < |all|
    ensures OfType(all[..i + 1], t) == if IsA(all[i], t) then OfType(all[..i], t) + [all[i]] else OfType(all[..i], t)
  {
    assert all[..i + 1] == all[..i] + [all[i]];
    OfTypeAppend(all[..i], all[i], t);
    assert OfType(all[..i], t) + [] == OfType(all[..i], t);
  }

  predicate Distinct<X(==)>(s: seq<X>)
  {
    forall i, j :: 0 <= i < j < |s| ==> s[i] != s[j]
  }

  /** A scene handle as the engine passes it to load and unload callbacks. */
  datatype Scene = Scene(handle: int, name: string)

  datatype LoadSceneMode = Single | Additive

  /**
   * A .NET Dictionary: its entries, and its keys in enumeration order. While no key is
   * removed the enumeration order is insertion order, and overwriting a key keeps its place.
   */
  datatype Dictionary<K(==,!new), V> = Dictionary(keys: seq<K>, entries: map<K, V>)
  {
    ghost predicate Valid()
    {
      Distinct(keys) && forall k :: k in entries <==> k in keys
    }

    static function Empty(): (d: Dictionary<K, V>)
      ensures d.Valid() && d.entries == map[]
    {
      Dictionary([], map[])
    }

    /** `Values`: one value per key, in enumeration order. */
    function Values(): (r: seq<V>)
      requires Valid()
    {
      seq(|keys|, j requires 0 <= j < |keys| => entries[keys[j]])
    }

    /** `Add` guarded by `ContainsKey` (or `TryAdd`): an existing key keeps its value. */
    function TryAdd(k: K, v: V): (d: Dictionary<K, V>)
      requires Valid()
      ensures d.Valid()
      ensures d.entries == if k in entries then entries else entries[k := v]
      ensures k in entries ==> d.keys == keys
      ensures k !in entries ==> d.keys == keys + [k]
    {
      if k in entries then this else Dictionary(keys + [k], entries[k := v])
    }

    /** The indexer `d[k] = v`: the value of an existing key is overwritten in place. */
    function Put(k: K, v: V): (d: Dictionary<K, V>)
      requires Valid()
      ensures d.Valid()
      ensures d.entries == entries[k := v]
      ensures k in entries ==> d.keys == keys
      ensures k !in entries ==> d.keys == keys + [k]
    {
      if k in entries then Dictionary(keys, entries[k := v]) else Dictionary(keys + [k], entries[k := v])
    }
  }

  /** Every entry's value is among `Values`, and every member of `Values` is an entry's value. */
  lemma ValuesCoverEntries<K(!new), V>(d: Dictionary<K, V>)
    requires d.Valid()
    ensures forall k :: k in d.entries ==> d.entries[k] in d.Values()
    ensures forall v :: v in d.Values() ==> exists k :: k in d.entries && d.entries[k] == v
  {
    var vs := d.Values();
    forall k | k in d.entries ensures d.entries[k] in vs {
      var j :| 0 <= j < |d.keys| && d.keys[j] == k;
      assert vs[j] == d.entries[k];
    }
    forall v | v in vs ensures exists k :: k in d.entries && d.entries[k] == v {
      var j :| 0 <= j < |vs| && vs[j] == v;
      assert d.keys[j] in d.entries;
    }
  }
}
