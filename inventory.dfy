/**
 * InventoryDataManager: item quantities keyed by ScriptableObjectReference<Item>, a reference
 * that stores only the item's name and resolves it through the Scripts registry on demand.
 * Quantities are 32-bit and wrap around on overflow (C#'s default unchecked arithmetic).
 */
module Inventory {
  import opened Engine
  import ScriptsRegistry

  newtype int32 = x: int | -0x8000_0000 <= x < 0x8000_0000

  /** The C# int that `x` truncates to: its residue modulo 2^32 in the signed range. */
  function Wrap(x: int): (r: int32)
    ensures -0x8000_0000 <= x < 0x8000_0000 ==> r as int == x
  {
    ((x + 0x8000_0000) % 0x1_0000_0000 - 0x8000_0000) as int32
  }

  /** `a + b` on C# ints (unchecked). */
  function AddWrapped(a: int32, b: int32): (r: int32)
    ensures -0x8000_0000 <= a as int + b as int < 0x8000_0000 ==> r as int == a as int + b as int
  {
    Wrap(a as int + b as int)
  }

  /** A wrapped sum differs from the true sum by a multiple of 2^32. */
  lemma AddWrappedCongruent(a: int32, b: int32)
    ensures (AddWrapped(a, b) as int - (a as int + b as int)) % 0x1_0000_0000 == 0
  {
    var x := a as int + b as int;
    var q := (x + 0x8000_0000) / 0x1_0000_0000;
    assert x + 0x8000_0000 == q * 0x1_0000_0000 + (x + 0x8000_0000) % 0x1_0000_0000;
    assert AddWrapped(a, b) as int - x == -q * 0x1_0000_0000;
  }

  const ItemType: string := "Item"

  // ---------------------------------------------------------------------------------------
  // ScriptableObjectReference<Item>

  /** A reference holds the referenced object's name; None stands for a null name. */
  datatype ItemRef = ItemRef(name: Option<string>)

  /** `new ScriptableObjectReference<Item>(item)`. */
  function RefOf(item: Asset): (r: ItemRef)
    ensures r.name == Some(item.name)
  {
    ItemRef(Some(item.name))
  }

  /** Equals(ScriptableObjectReference other): the names agree, which is value equality of references. */
  predicate RefEquals(a: ItemRef, b: ItemRef): (r: bool)
    ensures r <==> a == b
  {
    a.name == b.name
  }

  /** An argument of Equals(object): a reference, or an object of any other type (or null). */
  datatype Boxed = BoxedRef(r: ItemRef) | OtherObject

  /** Equals(object obj): `obj is ScriptableObjectReference<T> other && Equals(other)`. */
  predicate EqualsObject(a: ItemRef, obj: Boxed): (r: bool)
    ensures r <==> obj == BoxedRef(a)
  {
    obj.BoxedRef? && RefEquals(a, obj.r)
  }

  /** GetHashCode, over the runtime's string hash `stringHash`: 0 for a null name. */
  function HashCode(a: ItemRef, stringHash: string -> int): (h: int)
    ensures a.name.None? ==> h == 0
    ensures a.name.Some? ==> h == stringHash(a.name.value)
  {
    if a.name.Some? then stringHash(a.name.value) else 0
  }

  /** Equal references hash equally. */
  lemma EqualRefsHashEqually(a: ItemRef, b: ItemRef, stringHash: string -> int)
    requires RefEquals(a, b)
    ensures HashCode(a, stringHash) == HashCode(b, stringHash)
  {
  }

  /**
   * The Value getter: `GetScriptableObjectByName<Item>(name)`, which throws KeyNotFoundException
   * for a name that is absent or not an Item, and ArgumentNullException for a null name.
   */
  function Resolve(registry: ScriptsRegistry.ScriptableObjectManager, a: ItemRef): (r: Result<Asset>)
    reads registry
    ensures a.name.None? ==> r == Err(ArgumentNull)
    ensures a.name.Some? ==> r == registry.GetScriptableObjectByNameAs(a.name.value, ItemType)
  {
    if a.name.None? then Err(ArgumentNull) else registry.GetScriptableObjectByNameAs(a.name.value, ItemType)
  }

  /** Equals(T other): `Value == other`; resolving the reference may throw. */
  function EqualsItem(registry: ScriptsRegistry.ScriptableObjectManager, a: ItemRef, other: Asset): (r: Result<bool>)
    reads registry
    ensures r.Ok? <==> Resolve(registry, a).Ok?
    ensures r.Ok? ==> (r.value <==> Resolve(registry, a).value == other)
    ensures r.Err? ==> r.error == Resolve(registry, a).error
  {
    match Resolve(registry, a)
    case Ok(item) => Ok(item == other)
    case Err(e) => Err(e)
  }

  /** A reference whose name resolves to an item that carries that same name. */
  predicate ResolvesToItself(registry: ScriptsRegistry.ScriptableObjectManager, a: ItemRef)
    reads registry
  {
    Resolve(registry, a).Ok? && RefOf(Resolve(registry, a).value) == a
  }

  // ---------------------------------------------------------------------------------------
  // Quantities

  /** The quantity recorded for `a`, 0 when it has no entry. */
  function QuantityIn(m: map<ItemRef, int32>, a: ItemRef): int32
  {
    if a in m then m[a] else 0
  }

  /** AddItem on a present dictionary: `TryAdd(a, amount)`, or `items[a] += amount` when `a` is present. */
  function Added(d: Dictionary<ItemRef, int32>, a: ItemRef, amount: int32): (r: Dictionary<ItemRef, int32>)
    requires d.Valid()
    ensures r.Valid()
    ensures r.entries == d.entries[a := AddWrapped(QuantityIn(d.entries, a), amount)]
    ensures a in d.entries ==> r.keys == d.keys
    ensures a !in d.entries ==> r.keys == d.keys + [a]
  {
    if a in d.entries then d.Put(a, AddWrapped(d.entries[a], amount)) else d.TryAdd(a, amount)
  }

  /** The outcome of merging saved quantities: the resulting dictionary and the exception that stopped it, if any. */
  datatype Merging = Merging(items: Option<Dictionary<ItemRef, int32>>, error: Option<Exception>)

  /**
   * The merge loop of LoadSaveData over the saved keys `keys` (with quantities `saved`): each
   * key is resolved to its item and the quantity added with AddItem. A key that does not
   * resolve, or a null dictionary, stops the loop with what was merged so far.
   */
  function Merge(d: Option<Dictionary<ItemRef, int32>>, keys: seq<ItemRef>, saved: map<ItemRef, int32>,
                 registry: ScriptsRegistry.ScriptableObjectManager): (m: Merging)
    requires d.Some? ==> d.value.Valid()
    requires forall k :: k in keys ==> k in saved
    reads registry
    ensures m.items.Some? ==> m.items.value.Valid()
    ensures |keys| == 0 ==> m == Merging(d, None)
    decreases keys
  {
    if |keys| == 0 then Merging(d, None)
    else
      match Resolve(registry, keys[0])
      case Err(e) => Merging(d, Some(e))
      case Ok(item) =>
        if d.None? then Merging(d, Some(NullReference))
        else Merge(Some(Added(d.value, RefOf(item), saved[keys[0]])), keys[1..], saved, registry)
  }

  /**
   * Loading saved quantities is a merge: when every saved key resolves to an item of its own
   * name, nothing is thrown, each saved quantity is added onto the current one (0 for an absent
   * item), and the quantities of items that were not saved are kept.
   */
  lemma {:induction false} MergeAddsSavedQuantities(d: Dictionary<ItemRef, int32>, keys: seq<ItemRef>, saved: map<ItemRef, int32>,
                                                    registry: ScriptsRegistry.ScriptableObjectManager, a: ItemRef)
    requires d.Valid() && Distinct(keys)
    requires forall k :: k in keys ==> k in saved && ResolvesToItself(registry, k)
    ensures Merge(Some(d), keys, saved, registry).error == None
    ensures Merge(Some(d), keys, saved, registry).items.Some?
    ensures a in Merge(Some(d), keys, saved, registry).items.value.entries <==> a in d.entries || a in keys
    ensures QuantityIn(Merge(Some(d), keys, saved, registry).items.value.entries, a) ==
              if a in keys then AddWrapped(QuantityIn(d.entries, a), saved[a]) else QuantityIn(d.entries, a)
    decreases keys
  {
    if |keys| > 0 {
      var k := keys[0];
      assert k in keys;
      var item := Resolve(registry, k).value;
      assert RefOf(item) == k;
      var next := Added(d, k, saved[k]);
      assert Merge(Some(d), keys, saved, registry) == Merge(Some(next), keys[1..], saved, registry);
      assert forall j :: 0 <= j < |keys| - 1 ==> keys[1..][j] == keys[j + 1];
      assert k !in keys[1..];
      assert a in keys <==> a == k || a in keys[1..];
      MergeAddsSavedQuantities(next, keys[1..], saved, registry, a);
    }
  }

  /** The dictionary after `AddItem(item, 0)` for each item of `s` in order. */
  function Zeroed(d: Dictionary<ItemRef, int32>, s: seq<Asset>): (r: Dictionary<ItemRef, int32>)
    requires d.Valid()
    ensures r.Valid()
    decreases s
  {
    if |s| == 0 then d else Zeroed(Added(d, RefOf(s[0]), 0), s[1..])
  }

  /** The references `new(item)` of the items of `s`, in order. */
  function Refs(s: seq<Asset>): (r: seq<ItemRef>)
    ensures |r| == |s|
  {
    if |s| == 0 then [] else [RefOf(s[0])] + Refs(s[1..])
  }

  predicate AllZero(m: map<ItemRef, int32>)
  {
    forall k :: k in m ==> m[k] == 0
  }

  lemma AllZeroUpdate(m: map<ItemRef, int32>, r: ItemRef)
    requires AllZero(m)
    ensures AllZero(m[r := 0])
  {
  }

  /** `AddItem(item, 0)` on a dictionary of zeros enters the item's reference with 0. */
  lemma AddedZero(d: Dictionary<ItemRef, int32>, r: ItemRef)
    requires d.Valid() && AllZero(d.entries)
    ensures Added(d, r, 0).entries == d.entries[r := 0]
  {
    assert QuantityIn(d.entries, r) == 0;
    assert AddWrapped(0, 0) == 0;
  }

  /**
   * Initialize's dictionary: one key per distinct item name among `s` (items sharing a name
   * collapse to one key), every quantity 0.
   */
  lemma {:induction false} ZeroedHoldsEveryName(d: Dictionary<ItemRef, int32>, s: seq<Asset>, a: ItemRef)
    requires d.Valid() && AllZero(d.entries)
    ensures a in Zeroed(d, s).entries <==> a in d.entries || a in Refs(s)
    ensures a in Zeroed(d, s).entries ==> Zeroed(d, s).entries[a] == 0
    decreases s
  {
    if |s| > 0 {
      var r := RefOf(s[0]);
      AddedZero(d, r);
      AllZeroUpdate(d.entries, r);
      var next := Added(d, r, 0);
      assert Zeroed(d, s) == Zeroed(next, s[1..]);
      assert Refs(s) == [r] + Refs(s[1..]);
      ZeroedHoldsEveryName(next, s[1..], a);
      assert a in Refs(s) <==> a == r || a in Refs(s[1..]);
    }
  }

  // ---------------------------------------------------------------------------------------
  // InventorySaveData

  datatype ItemData = ItemData(itemID: ItemRef, quantity: int32)

  datatype InventorySaveData = InventorySaveData(items: seq<ItemData>)

  /** The containers LoadSaveData may receive: an inventory (its dictionary, None when null), an InventorySaveData, or anything else. */
  datatype DataContainer = InventoryManagerData(items: Option<Dictionary<ItemRef, int32>>) | SaveDataStruct(data: InventorySaveData) | OtherContainer

  /** `list` in front of a result's sequence; an error stays the error. */
  function Prepend(list: seq<ItemData>, r: Result<seq<ItemData>>): Result<seq<ItemData>>
  {
    match r
    case Ok(rest) => Ok(list + rest)
    case Err(e) => Err(e)
  }

  /**
   * The loop of the InventorySaveData constructor over the keys `keys` (quantities `entries`):
   * one ItemData per key, for the key's resolved item with the key's quantity; a key that does
   * not resolve throws.
   */
  function SaveDataItems(keys: seq<ItemRef>, entries: map<ItemRef, int32>, registry: ScriptsRegistry.ScriptableObjectManager): (r: Result<seq<ItemData>>)
    requires forall k :: k in keys ==> k in entries
    reads registry
    ensures r.Ok? ==> |r.value| == |keys|
    ensures r.Ok? <==> forall k :: k in keys ==> Resolve(registry, k).Ok?
    decreases keys
  {
    if |keys| == 0 then Ok([])
    else
      assert keys[0] in keys;
      assert forall k :: k in keys[1..] ==> k in keys;
      match Resolve(registry, keys[0])
      case Err(e) => Err(e)
      case Ok(item) =>
        assert forall k :: k in keys ==> k == keys[0] || k in keys[1..];
        Prepend([ItemData(RefOf(item), entries[keys[0]])], SaveDataItems(keys[1..], entries, registry))
  }

  /** One ItemData per key, with the key's quantity. */
  function EntryData(keys: seq<ItemRef>, entries: map<ItemRef, int32>): (r: seq<ItemData>)
    requires forall k :: k in keys ==> k in entries
    ensures |r| == |keys| && forall i :: 0 <= i < |keys| ==> r[i] == ItemData(keys[i], entries[keys[i]])
  {
    seq(|keys|, i requires 0 <= i < |keys| => ItemData(keys[i], entries[keys[i]]))
  }

  /** When every key resolves to an item of its own name, the save data holds exactly one ItemData per entry, in order, with that entry's quantity. */
  lemma {:induction false} SaveDataOnePerEntry(keys: seq<ItemRef>, entries: map<ItemRef, int32>, registry: ScriptsRegistry.ScriptableObjectManager)
    requires forall k :: k in keys ==> k in entries && ResolvesToItself(registry, k)
    ensures SaveDataItems(keys, entries, registry) == Ok(EntryData(keys, entries))
    decreases keys
  {
    if |keys| > 0 {
      assert keys[0] in keys;
      assert forall k :: k in keys[1..] ==> k in keys;
      SaveDataOnePerEntry(keys[1..], entries, registry);
      var item := Resolve(registry, keys[0]).value;
      assert RefOf(item) == keys[0];
      assert SaveDataItems(keys, entries, registry) ==
             Prepend([ItemData(keys[0], entries[keys[0]])], SaveDataItems(keys[1..], entries, registry));
      assert EntryData(keys, entries) == [ItemData(keys[0], entries[keys[0]])] + EntryData(keys[1..], entries);
    }
  }

  // ---------------------------------------------------------------------------------------
  // InventoryDataManager

  class InventoryDataManager {
    /** items; None while it is null (after OnStopwatchStop). */
    var items: Option<Dictionary<ItemRef, int32>>
    var allItems: seq<Asset>

    ghost predicate Valid()
      reads this
    {
      items.Some? ==> items.value.Valid()
    }

    constructor ()
      ensures Valid() && items == Some(Dictionary.Empty()) && allItems == []
    {
      items := Some(Dictionary.Empty());
      allItems := [];
    }

    /** AddItem(item, amount): inserts `amount` for a new item, adds it (wrapping) to an existing one; a null dictionary throws. */
    method AddItem(item: Asset, amount: int32) returns (error: Option<Exception>)
      requires Valid()
      modifies this`items
      ensures Valid()
      ensures old(items).None? ==> error == Some(NullReference) && items == old(items)
      ensures old(items).Some? ==> error == None && items == Some(Added(old(items).value, RefOf(item), amount))
    {
      if items.None? {
        return Some(NullReference);
      }
      var itemReference := RefOf(item);
      var d := items.value;
      if itemReference !in d.entries {
        items := Some(d.TryAdd(itemReference, amount));
      } else {
        items := Some(d.Put(itemReference, AddWrapped(d.entries[itemReference], amount)));
      }
      return None;
    }

    /** GetQuantity(item): the stored quantity, 0 for an absent item; a null dictionary throws. */
    function GetQuantity(item: Asset): (r: Result<int32>)
      reads this
      ensures items.None? ==> r == Err(NullReference)
      ensures items.Some? && RefOf(item) in items.value.entries ==> r == Ok(items.value.entries[RefOf(item)])
      ensures items.Some? && RefOf(item) !in items.value.entries ==> r == Ok(0)
    {
      if items.None? then Err(NullReference)
      else if RefOf(item) in items.value.entries then Ok(items.value.entries[RefOf(item)])
      else Ok(0)
    }

    /** ValidateQuantity(item, amount): the item is present with at least `amount`; an absent item fails even for `amount <= 0`. */
    function ValidateQuantity(item: Asset, amount: int32): (r: Result<bool>)
      reads this
      ensures items.None? ==> r == Err(NullReference)
      ensures items.Some? ==> r.Ok? && (r.value <==> RefOf(item) in items.value.entries && items.value.entries[RefOf(item)] >= amount)
    {
      if items.None? then Err(NullReference)
      else Ok(RefOf(item) in items.value.entries && items.value.entries[RefOf(item)] >= amount)
    }

    /**
     * LoadSaveData(data): another inventory's quantities are merged in key by key; an inventory
     * with a null dictionary throws NullReferenceException, any other container
     * InvalidCastException.
     */
    method LoadSaveData(data: DataContainer, registry: ScriptsRegistry.ScriptableObjectManager) returns (error: Option<Exception>)
      requires Valid()
      requires data.InventoryManagerData? && data.items.Some? ==> data.items.value.Valid()
      modifies this`items
      ensures Valid()
      ensures !data.InventoryManagerData? ==> error == Some(InvalidCast) && items == old(items)
      ensures data.InventoryManagerData? && data.items.None? ==> error == Some(NullReference) && items == old(items)
      ensures data.InventoryManagerData? && data.items.Some? ==>
                Merging(items, error) == Merge(old(items), data.items.value.keys, data.items.value.entries, registry)
    {
      if !data.InventoryManagerData? {
        return Some(InvalidCast);
      }
      if data.items.None? {
        return Some(NullReference);
      }
      var saved := data.items.value;
      for i := 0 to |saved.keys|
        invariant Valid()
        invariant Merge(items, saved.keys[i..], saved.entries, registry) == Merge(old(items), saved.keys, saved.entries, registry)
      {
        assert saved.keys[i..][1..] == saved.keys[i + 1..];
        var key := saved.keys[i];
        var item := Resolve(registry, key);
        if item.Err? {
          return Some(item.error);
        }
        error := AddItem(item.value, saved.entries[key]);
        if error.Some? {
          return error;
        }
      }
      return None;
    }

    /** Initialize over the items `loaded` from Resources: a new dictionary with every item at 0. */
    method Initialize(loaded: seq<Asset>)
      modifies this`items, this`allItems
      ensures Valid()
      ensures allItems == loaded && items == Some(Zeroed(Dictionary.Empty(), loaded))
    {
      allItems := loaded;
      items := Some(Dictionary.Empty());
      for i := 0 to |loaded|
        invariant Valid() && items.Some? && allItems == loaded
        invariant Zeroed(items.value, loaded[i..]) == Zeroed(Dictionary.Empty(), loaded)
      {
        assert loaded[i..][1..] == loaded[i + 1..];
        var _ := AddItem(loaded[i], 0);
      }
      assert loaded[|loaded|..] == [];
    }

    method OnStopwatchStart(scene: Scene, loaded: seq<Asset>)
      modifies this`items, this`allItems
      ensures Valid()
      ensures allItems == loaded && items == Some(Zeroed(Dictionary.Empty(), loaded))
    {
      Initialize(loaded);
    }

    method OnStopwatchStop(scene: Scene)
      modifies this`items
      ensures Valid() && items == None
    {
      items := None;
    }
  }

  /** `new InventorySaveData(manager)`: one ItemData per dictionary entry; a null dictionary, or a key that does not resolve, throws. */
  method NewInventorySaveData(manager: InventoryDataManager, registry: ScriptsRegistry.ScriptableObjectManager)
    returns (r: Result<InventorySaveData>)
    requires manager.Valid()
    ensures manager.items.None? ==> r == Err(NullReference)
    ensures manager.items.Some? ==>
              var expected := SaveDataItems(manager.items.value.keys, manager.items.value.entries, registry);
              (r.Ok? <==> expected.Ok?) && (r.Ok? ==> r.value.items == expected.value) && (r.Err? ==> r.error == expected.error)
  {
    if manager.items.None? {
      return Err(NullReference);
    }
    var d := manager.items.value;
    var list := [];
    assert d.keys[0..] == d.keys;
    assert Prepend([], SaveDataItems(d.keys, d.entries, registry)) == SaveDataItems(d.keys, d.entries, registry) by {
      var all := SaveDataItems(d.keys, d.entries, registry);
      if all.Ok? {
        assert [] + all.value == all.value;
      }
    }
    for i := 0 to |d.keys|
      invariant SaveDataItems(d.keys, d.entries, registry) == Prepend(list, SaveDataItems(d.keys[i..], d.entries, registry))
    {
      assert d.keys[i..][0] == d.keys[i] && d.keys[i..][1..] == d.keys[i + 1..];
      var key := d.keys[i];
      var item := Resolve(registry, key);
      if item.Err? {
        return Err(item.error);
      }
      var entry := ItemData(RefOf(item.value), d.entries[key]);
      ghost var rest := SaveDataItems(d.keys[i + 1..], d.entries, registry);
      assert SaveDataItems(d.keys[i..], d.entries, registry) == Prepend([entry], rest);
      assert Prepend(list, Prepend([entry], rest)) == Prepend(list + [entry], rest) by {
        if rest.Ok? {
          assert (list + [entry]) + rest.value == list + ([entry] + rest.value);
        }
      }
      list := list + [entry];
    }
    assert SaveDataItems(d.keys[|d.keys|..], d.entries, registry) == Ok([]);
    assert list + [] == list;
    return Ok(InventorySaveData(list));
  }
}
