/** A caller's view of the history list and its cursor: the scenarios the
    repository's own tests walk through, stated as contracts. */
module HistoryClient {
  import opened Wrappers
  import opened Storage
  import opened UseHistory

  /** Two saves, then undo hands back the older entry and redo the newer
      one; selecting the second listed entry moves the cursor to it. */
  method UndoThenRedoScenario() returns (undone: Option<string>, redone: Option<string>, selected: int)
    ensures undone == Some("first") && redone == Some("second")
    ensures selected == 1
  {
    var store := new Store<seq<Entry<string>>>();
    var h := new HistoryHook(store, "test-history", None, Some(true));
    h.Add("first", "id-1", 1);
    h.Add("second", "id-2", 2);
    assert h.entries == [Entry("id-2", 2, "second"), Entry("id-1", 1, "first")];
    assert h.CanUndoNow() && !h.CanRedoNow();
    undone := h.Undo();
    assert h.CanRedoNow();
    redone := h.Redo();
    h.Select(h.entries[1]);
    selected := h.currentIndex;
  }

  /** With a cap of three, a fourth save drops the oldest entry and the
      newest one comes first. */
  method CapScenario() returns (all: seq<Entry<string>>)
    ensures |all| == 3 && all[0].data == "4"
    ensures all == [Entry("id-4", 4, "4"), Entry("id-3", 3, "3"), Entry("id-2", 2, "2")]
  {
    var store := new Store<seq<Entry<string>>>();
    var s := new HistoryStorage(store, "test-history", Some(3));
    s.Add("1", "id-1", 1);
    s.Add("2", "id-2", 2);
    s.Add("3", "id-3", 3);
    s.Add("4", "id-4", 4);
    all := s.GetAll();
  }

  /** Removing the only entry by its id leaves an empty list. */
  method RemoveScenario() returns (count: nat)
    ensures count == 0
  {
    var store := new Store<seq<Entry<string>>>();
    var s := new HistoryStorage(store, "test-history", None);
    s.Add("test", "id-1", 1);
    s.Remove(s.GetAll()[0].id);
    count := s.GetCount();
  }
}
