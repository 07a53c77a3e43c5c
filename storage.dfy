/** The bounded, newest-first history list kept in the browser's key/value
    store (`HistoryStorage`), and the generic `setStorageItem`,
    `getStorageItem` and `removeStorageItem` helpers. The store is an ideal
    map from keys to already parsed values; a key whose text is empty or is
    not valid JSON holds `Unreadable`. */
module Storage {
  import opened Wrappers
  import Sequences

  /** What a key of the store holds, seen through `JSON.parse`. */
  datatype Slot<V> = Parsed(value: V) | Unreadable

  /** The browser's `localStorage`, for values of one type. */
  class Store<V> {
    var items: map<string, Slot<V>>

    constructor()
      ensures items == map[]
    {
      items := map[];
    }
  }

  /** `getStorageItem`'s reading of `items`: the stored value, or `default`
      when the key is missing or its text does not parse. */
  function ItemOr<V>(items: map<string, Slot<V>>, key: string, default: V): (v: V)
    ensures key !in items ==> v == default
    ensures key in items && items[key].Parsed? ==> v == items[key].value
    ensures key in items && items[key].Unreadable? ==> v == default
  {
    if key in items && items[key].Parsed? then items[key].value else default
  }

  /** `setStorageItem(key, value)`. */
  method SetStorageItem<V>(store: Store<V>, key: string, value: V)
    modifies store
    ensures store.items == old(store.items)[key := Parsed(value)]
    ensures forall d :: ItemOr(store.items, key, d) == value
    ensures forall k :: k != key ==> (k in store.items <==> k in old(store.items))
    ensures forall k :: k != key && k in store.items ==> store.items[k] == old(store.items)[k]
  {
    store.items := store.items[key := Parsed(value)];
  }

  /** `getStorageItem(key, defaultValue)`. */
  function GetStorageItem<V>(store: Store<V>, key: string, default: V): (v: V)
    reads store
    ensures key in store.items && store.items[key].Parsed? ==> v == store.items[key].value
    ensures key !in store.items || store.items[key].Unreadable? ==> v == default
  {
    ItemOr(store.items, key, default)
  }

  /** `removeStorageItem(key)`. */
  method RemoveStorageItem<V>(store: Store<V>, key: string)
    modifies store
    ensures store.items == old(store.items) - {key}
    ensures forall d :: ItemOr(store.items, key, d) == d
  {
    store.items := store.items - {key};
  }

  /** A value read back after it was stored is the stored value; every
      other key reads as before. */
  lemma SetThenGet<V>(items: map<string, Slot<V>>, key: string, value: V, other: string, default: V)
    ensures ItemOr(items[key := Parsed(value)], key, default) == value
    ensures other != key ==> ItemOr(items[key := Parsed(value)], other, default) == ItemOr(items, other, default)
  {
  }

  /** One element of the history list. */
  datatype Entry<T> = Entry(id: string, timestamp: int, data: T)

  /** The cap `options.maxEntries || 50`: a missing or zero cap means 50. */
  function EffectiveMax(maxEntries: Option<int>): (m: int)
    ensures m != 0
    ensures maxEntries == None || maxEntries == Some(0) ==> m == 50
    ensures maxEntries.Some? && maxEntries.value != 0 ==> m == maxEntries.value
  {
    match maxEntries
    case None => 50
    case Some(v) => if v == 0 then 50 else v
  }

  /** What `add` leaves: `newEntry` prepended (`unshift`), then everything
      from index `max` on cut off (`splice(max)`) when the list is too long. */
  function Added<T>(entries: seq<Entry<T>>, newEntry: Entry<T>, max: int): (r: seq<Entry<T>>)
    ensures |r| <= |entries| + 1 && r == ([newEntry] + entries)[..|r|]
    ensures 0 <= max ==> |r| == if |entries| + 1 <= max then |entries| + 1 else max
    ensures max < 0 ==> |r| == if |entries| + 1 + max >= 0 then |entries| + 1 + max else 0
  {
    var grown := [newEntry] + entries;
    if |grown| > max then Sequences.SpliceKeep(grown, max) else grown
  }

  /** For a positive cap, `add` keeps the first `min(|entries| + 1, max)`
      elements of the grown list: the new entry first, then the newest of
      the old ones in their order. */
  lemma AddedShape<T>(entries: seq<Entry<T>>, newEntry: Entry<T>, max: int)
    requires max >= 1
    ensures var r := Added(entries, newEntry, max);
            && |r| == (if |entries| + 1 <= max then |entries| + 1 else max)
            && r == ([newEntry] + entries)[..|r|]
            && r[0] == newEntry
            && r[1..] == entries[..|r| - 1]
  {
    var r := Added(entries, newEntry, max);
    assert r[1..] == ([newEntry] + entries)[1..|r|];
    assert ([newEntry] + entries)[1..] == entries;
  }

  /** A negative cap, as `splice` reads it, drops that many elements from
      the end of the grown list. */
  lemma AddedNegativeCap<T>(entries: seq<Entry<T>>, newEntry: Entry<T>, max: int)
    requires max < 0
    ensures |Added(entries, newEntry, max)| == if |entries| + 1 + max >= 0 then |entries| + 1 + max else 0
    ensures Added(entries, newEntry, max) == ([newEntry] + entries)[..|Added(entries, newEntry, max)|]
  {
  }

  /** `find(entry => entry.id === id)`. */
  function FindById<T>(entries: seq<Entry<T>>, id: string): (r: Option<Entry<T>>)
    ensures r.None? <==> forall i :: 0 <= i < |entries| ==> entries[i].id != id
    ensures r.Some? ==> exists i :: 0 <= i < |entries| && entries[i] == r.value
                          && r.value.id == id
                          && forall j :: 0 <= j < i ==> entries[j].id != id
  {
    var i := Sequences.FirstIndex(entries, (e: Entry<T>) => e.id == id);
    if i == -1 then None else Some(entries[i])
  }

  /** `filter(entry => entry.id !== id)`: every entry with that id goes, the
      rest stay in their order. */
  function WithoutId<T>(entries: seq<Entry<T>>, id: string): (r: seq<Entry<T>>)
    ensures forall i :: 0 <= i < |r| ==> r[i].id != id && r[i] in entries
    ensures forall i :: 0 <= i < |entries| && entries[i].id != id ==> entries[i] in r
    ensures |r| <= |entries|
  {
    Sequences.Filter(entries, (e: Entry<T>) => e.id != id)
  }

  /** Removal keeps the order of what remains and removes nothing else. */
  lemma WithoutIdOrder<T>(entries: seq<Entry<T>>, id: string)
    ensures Sequences.IsSubsequence(WithoutId(entries, id), entries)
    ensures (forall i :: 0 <= i < |entries| ==> entries[i].id != id) ==> WithoutId(entries, id) == entries
    ensures FindById(WithoutId(entries, id), id) == None
  {
    Sequences.FilterIsSubsequence(entries, (e: Entry<T>) => e.id != id);
    if forall i :: 0 <= i < |entries| ==> entries[i].id != id {
      Sequences.FilterAll(entries, (e: Entry<T>) => e.id != id);
    }
  }

  class HistoryStorage<T> {
    /** The effective cap. */
    const maxEntries: int
    const storageKey: string
    /** The browser store the list lives in, shared with other users of it. */
    const store: Store<seq<Entry<T>>>

    /** `new HistoryStorage({storageKey, maxEntries})`. */
    constructor(store: Store<seq<Entry<T>>>, storageKey: string, maxEntries: Option<int>)
      ensures this.store == store && this.storageKey == storageKey
      ensures this.maxEntries == EffectiveMax(maxEntries)
    {
      this.store := store;
      this.storageKey := storageKey;
      this.maxEntries := EffectiveMax(maxEntries);
    }

    /** `getAll()` (and the private `getEntries()`): the stored list, or `[]`
        when the key is missing or unreadable. */
    function GetAll(): (r: seq<Entry<T>>)
      reads store
      ensures storageKey !in store.items ==> r == []
    {
      ItemOr(store.items, storageKey, [])
    }

    /** `add(data)`, with the generated id and time stamp as parameters. */
    method Add(data: T, id: string, timestamp: int)
      modifies store
      ensures store.items == old(store.items)[storageKey := Parsed(Added(old(GetAll()), Entry(id, timestamp, data), maxEntries))]
      ensures GetAll() == Added(old(GetAll()), Entry(id, timestamp, data), maxEntries)
    {
      var entries := GetAll();
      entries := [Entry(id, timestamp, data)] + entries;
      if |entries| > maxEntries {
        entries := Sequences.SpliceKeep(entries, maxEntries);
      }
      store.items := store.items[storageKey := Parsed(entries)];
    }

    /** `get(id)`: the first entry with that id. */
    function Get(id: string): (r: Option<Entry<T>>)
      reads store
      ensures r.Some? ==> r.value.id == id && r.value in GetAll()
      ensures r.None? <==> forall i :: 0 <= i < |GetAll()| ==> GetAll()[i].id != id
      ensures r.Some? ==> exists i :: 0 <= i < |GetAll()| && GetAll()[i] == r.value
                            && forall j :: 0 <= j < i ==> GetAll()[j].id != id
    {
      FindById(GetAll(), id)
    }

    /** `remove(id)`. */
    method Remove(id: string)
      modifies store
      ensures store.items == old(store.items)[storageKey := Parsed(WithoutId(old(GetAll()), id))]
      ensures Get(id) == None
    {
      var entries := WithoutId(GetAll(), id);
      store.items := store.items[storageKey := Parsed(entries)];
      WithoutIdOrder(old(GetAll()), id);
    }

    /** `clear()`: the key is removed, so the list reads as empty. */
    method Clear()
      modifies store
      ensures store.items == old(store.items) - {storageKey}
      ensures GetAll() == [] && GetCount() == 0
    {
      store.items := store.items - {storageKey};
    }

    /** `getCount()`. */
    function GetCount(): (n: nat)
      reads store
      ensures n == |GetAll()|
    {
      |GetAll()|
    }
  }
}
