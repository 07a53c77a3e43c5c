/** The `useHistory` hook: the list of stored entries plus an undo/redo
    cursor `currentIndex`, which is -1 (no current entry) or a position in
    the list; position 0 is the newest entry, undo moves towards older
    entries. Each call runs against the current state, one after another. */
module UseHistory {
  import opened Wrappers
  import opened Storage
  import Sequences

  /** The cursor's invariant: -1 or a position in the list; with undo/redo
      enabled it is -1 exactly when the list is empty, and without it the
      cursor never moves from -1. */
  ghost predicate CursorInvariant<T>(entries: seq<Entry<T>>, index: int, enabled: bool)
  {
    && -1 <= index < |entries|
    && (enabled ==> (index == -1 <==> entries == []))
    && (!enabled ==> index == -1)
  }

  /** The initial `currentIndex`: 0 when undo/redo is enabled and entries exist. */
  function InitialIndex<T>(entries: seq<Entry<T>>, enabled: bool): (i: int)
    ensures CursorInvariant(entries, i, enabled)
  {
    if enabled && |entries| > 0 then 0 else -1
  }

  /** `entries[i]?.data`. */
  function DataAt<T>(entries: seq<Entry<T>>, i: int): (r: Option<T>)
    ensures r.Some? <==> 0 <= i < |entries|
    ensures r.Some? ==> r.value == entries[i].data
  {
    if 0 <= i < |entries| then Some(entries[i].data) else None
  }

  /** `undo()`: the data it returns and the new cursor. */
  function UndoStep<T>(entries: seq<Entry<T>>, index: int, enabled: bool): (r: (Option<T>, int))
    ensures r.1 == index || r.1 == index + 1
    ensures r.1 == index + 1 <==> CanUndo(entries, index, enabled)
    ensures r.0.Some? <==> CanUndo(entries, index, enabled) && index >= -1
    ensures r.0.Some? ==> r.0.value == entries[index + 1].data
  {
    if !enabled || index >= |entries| - 1 then (None, index)
    else (DataAt(entries, index + 1), index + 1)
  }

  /** `redo()`: the data it returns and the new cursor. */
  function RedoStep<T>(entries: seq<Entry<T>>, index: int, enabled: bool): (r: (Option<T>, int))
    ensures r.1 == index || r.1 == index - 1
    ensures r.1 == index - 1 <==> CanRedo(entries, index, enabled)
    ensures r.0.Some? <==> CanRedo(entries, index, enabled) && index <= |entries|
    ensures r.0.Some? ==> r.0.value == entries[index - 1].data
  {
    if !enabled || index <= 0 then (None, index)
    else (DataAt(entries, index - 1), index - 1)
  }

  /** `select(entry)`: the new cursor. */
  function SelectStep<T>(entries: seq<Entry<T>>, index: int, enabled: bool, id: string): (k: int)
    ensures enabled && (exists i :: 0 <= i < |entries| && entries[i].id == id) ==>
              0 <= k < |entries| && entries[k].id == id && forall j :: 0 <= j < k ==> entries[j].id != id
    ensures !enabled || (forall i :: 0 <= i < |entries| ==> entries[i].id != id) ==> k == index
  {
    var k := Sequences.FirstIndex(entries, (e: Entry<T>) => e.id == id);
    if k != -1 && enabled then k else index
  }

  /** `canUndo`. */
  function CanUndo<T>(entries: seq<Entry<T>>, index: int, enabled: bool): (b: bool)
  {
    enabled && index < |entries| - 1
  }

  /** `canRedo`. */
  function CanRedo<T>(entries: seq<Entry<T>>, index: int, enabled: bool): (b: bool)
  {
    enabled && index > 0
  }

  /** Undo either does nothing and returns nothing, or moves one entry
      older and returns that entry's data; it does the latter exactly when
      `canUndo` holds, and it keeps the invariant. */
  lemma UndoSpec<T>(entries: seq<Entry<T>>, index: int, enabled: bool)
    requires CursorInvariant(entries, index, enabled)
    ensures var (r, i) := UndoStep(entries, index, enabled);
            && CursorInvariant(entries, i, enabled)
            && (r.Some? <==> CanUndo(entries, index, enabled))
            && (r.None? ==> i == index)
            && (r.Some? ==> i == index + 1 && r.value == entries[i].data)
  {
  }

  /** Redo mirrors undo, moving one entry newer exactly when `canRedo` holds. */
  lemma RedoSpec<T>(entries: seq<Entry<T>>, index: int, enabled: bool)
    requires CursorInvariant(entries, index, enabled)
    ensures var (r, i) := RedoStep(entries, index, enabled);
            && CursorInvariant(entries, i, enabled)
            && (r.Some? <==> CanRedo(entries, index, enabled))
            && (r.None? ==> i == index)
            && (r.Some? ==> i == index - 1 && r.value == entries[i].data)
  {
  }

  /** A successful undo followed by redo returns to the original cursor and
      hands back the data of the entry it started at. */
  lemma UndoThenRedo<T>(entries: seq<Entry<T>>, index: int, enabled: bool)
    requires CursorInvariant(entries, index, enabled)
    requires UndoStep(entries, index, enabled).0.Some?
    ensures var i := UndoStep(entries, index, enabled).1;
            RedoStep(entries, i, enabled) == (Some(entries[index].data), index)
  {
  }

  /** A successful redo followed by undo returns to the original cursor. */
  lemma RedoThenUndo<T>(entries: seq<Entry<T>>, index: int, enabled: bool)
    requires CursorInvariant(entries, index, enabled)
    requires RedoStep(entries, index, enabled).0.Some?
    ensures var i := RedoStep(entries, index, enabled).1;
            UndoStep(entries, i, enabled) == (Some(entries[index].data), index)
  {
  }

  /** Selection moves the cursor to the first entry with the id when that id
      is listed and undo/redo is enabled, and otherwise leaves it; it keeps
      the invariant. */
  lemma SelectSpec<T>(entries: seq<Entry<T>>, index: int, enabled: bool, id: string)
    requires CursorInvariant(entries, index, enabled)
    ensures var i := SelectStep(entries, index, enabled, id);
            && CursorInvariant(entries, i, enabled)
            && (i == index || (0 <= i < |entries| && entries[i].id == id
                               && forall j :: 0 <= j < i ==> entries[j].id != id))
            && ((enabled && exists j :: 0 <= j < |entries| && entries[j].id == id) ==>
                  0 <= i < |entries| && entries[i].id == id)
  {
    var k := Sequences.FirstIndex(entries, (e: Entry<T>) => e.id == id);
    if enabled && exists j :: 0 <= j < |entries| && entries[j].id == id {
      var j :| 0 <= j < |entries| && entries[j].id == id;
      assert k != -1;
    }
  }

  class HistoryHook<T> {
    const storage: HistoryStorage<T>
    const enableUndoRedo: bool
    var entries: seq<Entry<T>>
    var currentIndex: int

    ghost predicate Valid()
      reads this
    {
      CursorInvariant(entries, currentIndex, enableUndoRedo)
    }

    /** `useHistory({storageKey, maxEntries = 50, enableUndoRedo = true})`. */
    constructor(store: Store<seq<Entry<T>>>, storageKey: string, maxEntries: Option<int>, enableUndoRedo: Option<bool>)
      ensures Valid()
      ensures fresh(storage) && storage.store == store && storage.storageKey == storageKey
      ensures storage.maxEntries == EffectiveMax(maxEntries)
      ensures this.enableUndoRedo == enableUndoRedo.GetOr(true)
      ensures entries == ItemOr(store.items, storageKey, [])
      ensures currentIndex == InitialIndex(entries, this.enableUndoRedo)
    {
      storage := new HistoryStorage(store, storageKey, Some(maxEntries.GetOr(50)));
      this.enableUndoRedo := enableUndoRedo.GetOr(true);
      var all := ItemOr(store.items, storageKey, []);
      entries := all;
      currentIndex := InitialIndex(all, enableUndoRedo.GetOr(true));
    }

    /** `refresh()`: re-reads the list without moving the cursor. */
    method Refresh()
      modifies this
      ensures entries == storage.GetAll() && currentIndex == old(currentIndex)
    {
      entries := storage.GetAll();
    }

    /** `add(data)`, with the generated id and time stamp as parameters. */
    method Add(data: T, id: string, timestamp: int)
      modifies this, storage.store
      ensures entries == Added(old(storage.GetAll()), Entry(id, timestamp, data), storage.maxEntries)
      ensures entries == storage.GetAll()
      ensures storage.store.items == old(storage.store.items)[storage.storageKey := Parsed(entries)]
      ensures currentIndex == if enableUndoRedo then 0 else old(currentIndex)
      ensures old(Valid()) && storage.maxEntries >= 1 ==> Valid()
    {
      storage.Add(data, id, timestamp);
      entries := storage.GetAll();
      if enableUndoRedo {
        currentIndex := 0;
      }
    }

    /** `undo()`. */
    method Undo() returns (r: Option<T>)
      modifies this
      ensures (r, currentIndex) == UndoStep(old(entries), old(currentIndex), enableUndoRedo)
      ensures entries == old(entries)
      ensures old(Valid()) ==> Valid()
    {
      if !enableUndoRedo || currentIndex >= |entries| - 1 {
        return None;
      }
      var newIndex := currentIndex + 1;
      currentIndex := newIndex;
      r := DataAt(entries, newIndex);
    }

    /** `redo()`. */
    method Redo() returns (r: Option<T>)
      modifies this
      ensures (r, currentIndex) == RedoStep(old(entries), old(currentIndex), enableUndoRedo)
      ensures entries == old(entries)
      ensures old(Valid()) ==> Valid()
    {
      if !enableUndoRedo || currentIndex <= 0 {
        return None;
      }
      var newIndex := currentIndex - 1;
      currentIndex := newIndex;
      r := DataAt(entries, newIndex);
    }

    /** `select(entry)`. */
    method Select(entry: Entry<T>)
      modifies this
      ensures currentIndex == SelectStep(old(entries), old(currentIndex), enableUndoRedo, entry.id)
      ensures entries == old(entries)
      ensures old(Valid()) ==> Valid()
    {
      var index := Sequences.FirstIndex(entries, (e: Entry<T>) => e.id == entry.id);
      if index != -1 && enableUndoRedo {
        currentIndex := index;
      }
      if old(Valid()) {
        SelectSpec(entries, old(currentIndex), enableUndoRedo, entry.id);
      }
    }

    /** `clear()`. */
    method Clear()
      modifies this, storage.store
      ensures storage.store.items == old(storage.store.items) - {storage.storageKey}
      ensures entries == [] && currentIndex == -1 && Valid()
      ensures storage.GetAll() == []
    {
      storage.Clear();
      entries := [];
      currentIndex := -1;
    }

    /** `canUndo`: whether `undo()` would hand back an entry's data now. */
    function CanUndoNow(): (b: bool)
      reads this
      ensures b == CanUndo(entries, currentIndex, enableUndoRedo)
      ensures Valid() ==> (b <==> UndoStep(entries, currentIndex, enableUndoRedo).0.Some?)
    {
      enableUndoRedo && currentIndex < |entries| - 1
    }

    /** `canRedo`: whether `redo()` would hand back an entry's data now. */
    function CanRedoNow(): (b: bool)
      reads this
      ensures b == CanRedo(entries, currentIndex, enableUndoRedo)
      ensures Valid() ==> (b <==> RedoStep(entries, currentIndex, enableUndoRedo).0.Some?)
    {
      enableUndoRedo && currentIndex > 0
    }
  }
}
