/** The demo text tool: it transforms its input with the background worker,
    falls back to a local transform when the worker fails, and records
    input/output/operation triples in an undoable history. */
module Demo {
  import opened Wrappers
  import opened Messages
  import opened Storage
  import opened UseHistory
  import opened WorkerManagement
  import WorkerScript
  import Sequences
  import Text

  datatype Operation = Reverse | Uppercase | Lowercase {
    /** The operation's name on the wire. */
    function Name(): (s: string)
      ensures s in ["reverse", "uppercase", "lowercase"]
    {
      match this
      case Reverse => "reverse"
      case Uppercase => "uppercase"
      case Lowercase => "lowercase"
    }
  }

  /** What one history entry of the tool holds. */
  datatype DemoState = DemoState(input: string, output: string, operation: Operation)

  /** The local transform `processText` uses when the worker request fails:
      the three known operations, and the text unchanged for any other name. */
  function Fallback(op: string, text: string): (r: string)
    ensures |r| == |text|
    ensures op == "reverse" ==> r == Sequences.Reverse(text)
    ensures op == "uppercase" ==> r == Text.Upper(text)
    ensures op == "lowercase" ==> r == Text.Lower(text)
    ensures op !in ["reverse", "uppercase", "lowercase"] ==> r == text
  {
    if op == "reverse" then Sequences.Reverse(text)
    else if op == "uppercase" then Text.Upper(text)
    else if op == "lowercase" then Text.Lower(text)
    else text
  }

  /** For the tool's own operations the worker's answer is the fallback's:
      the output does not depend on whether the worker was reachable. */
  lemma WorkerAgreesWithFallback(op: Operation, text: string, id: string, typeErrorText: string)
    ensures Settle(WorkerScript.Respond(WorkerMessage(id, op.Name(), Present(Str(text))), typeErrorText))
            == Resolved(Str(Fallback(op.Name(), text)))
  {
  }

  /** A string `text` gets a string back from the worker, whatever the
      operation name, whenever the reply is a success. */
  lemma WorkerAnswersStrings(kind: string, text: string, id: string, typeErrorText: string)
    ensures var o := Settle(WorkerScript.Respond(WorkerMessage(id, kind, Present(Str(text))), typeErrorText));
            o.Resolved? ==> o.value.Str?
  {
  }

  /** The tool's `renderEntry`: the operation, ": ", and the first 30
      characters of the input, with "..." when the input is longer. */
  function EntryLabel(d: DemoState): (r: string)
    ensures |d.input| <= 30 ==> r == d.operation.Name() + ": " + d.input
    ensures |d.input| > 30 ==> r == d.operation.Name() + ": " + d.input[..30] + "..."
    ensures |r| <= |d.operation.Name()| + 2 + 33
  {
    var preview := d.input[..if |d.input| < 30 then |d.input| else 30];
    d.operation.Name() + ": " + preview + (if |d.input| > 30 then "..." else "")
  }

  class DemoTool {
    var input: string
    var output: string
    var operation: Operation
    var isProcessing: bool
    const history: HistoryHook<DemoState>

    /** The tool's history: key "demo-tool-history", 20 entries, undo/redo on. */
    ghost predicate Valid()
      reads this, history
    {
      && history.enableUndoRedo
      && history.storage.maxEntries == 20
      && history.storage.storageKey == "demo-tool-history"
      && history.Valid()
    }

    constructor(store: Store<seq<Entry<DemoState>>>)
      ensures Valid() && fresh(history) && fresh(history.storage) && history.storage.store == store
      ensures input == "" && output == "" && operation == Reverse && !isProcessing
      ensures history.entries == ItemOr(store.items, "demo-tool-history", [])
    {
      input := "";
      output := "";
      operation := Reverse;
      isProcessing := false;
      history := new HistoryHook(store, "demo-tool-history", Some(20), Some(true));
    }

    /** `processText(text, op)` up to its `await`. `canCreate` says whether
        a worker could be built if none exists yet. An empty text clears the
        output and asks nothing. A request rejected at once goes straight to
        the local fallback. A posted request leaves the tool processing until
        `ResumeProcessText` runs for the id returned here. */
    method ProcessText(text: string, op: string, host: WorkerHost, canCreate: bool)
      returns (requested: Option<string>)
      requires host.Valid()
      modifies this, host, host.instance
      ensures host.Valid()
      ensures input == old(input) && operation == old(operation)
      ensures text == "" ==> (output == "" && isProcessing == old(isProcessing)
                              && requested == None && host.instance == old(host.instance))
      ensures text == "" ==> unchanged(host) && (host.instance != null ==> unchanged(host.instance))
      ensures text != "" ==> host.instance != null
      ensures text != "" && requested.None? ==> output == Fallback(op, text) && !isProcessing
      ensures requested.Some? ==> output == old(output) && isProcessing
      ensures text != "" ==> (requested.Some? <==> host.instance.available)
      ensures requested.Some? ==> |host.instance.sent| > 0 && requested.value in host.instance.pending
                                  && host.instance.sent[|host.instance.sent| - 1]
                                     == WorkerMessage(requested.value, op, Present(Str(text)))
      // An existing manager is kept; it gains exactly one request, or none
      // when the post was rejected at once.
      ensures text != "" && old(host.instance) != null ==> host.instance == old(host.instance)
      ensures text != "" && old(host.instance) != null && requested.None? ==> unchanged(host.instance)
      ensures requested.Some? && old(host.instance) != null ==>
                && requested.value == MsgId(old(host.instance.messageId))
                && host.instance.messageId == old(host.instance.messageId) + 1
                && host.instance.pending == old(host.instance.pending) + [requested.value]
                && host.instance.sent == old(host.instance.sent) + [WorkerMessage(requested.value, op, Present(Str(text)))]
                && host.instance.settlements == old(host.instance.settlements)
      // Otherwise a new manager for "/cswx/worker.js" holds that one request,
      // or nothing when its worker could not be built.
      ensures text != "" && old(host.instance) == null ==>
                && fresh(host.instance) && host.instance.workerPath == "/cswx/worker.js"
                && host.instance.available == canCreate && host.instance.settlements == []
                && host.instance.messageId == (if canCreate then 1 else 0)
                && host.instance.pending == (if canCreate then [MsgId(0)] else [])
                && host.instance.sent == (if canCreate then [WorkerMessage(MsgId(0), op, Present(Str(text)))] else [])
    {
      if text == "" {
        output := "";
        return None;
      }
      isProcessing := true;
      var worker := host.GetWorker(canCreate);
      assert worker == host.instance && worker.Valid();
      var posted := worker.PostMessage(op, Present(Str(text)));
      if posted.RejectedAtOnce? {
        output := Fallback(op, text);
        isProcessing := false;
        return None;
      }
      requested := Some(posted.id);
    }

    /** The rest of `processText(text, op)`, once the promise of request `id`
        to the shared manager has settled: the resolved value (a string, as
        `WorkerAnswersStrings` shows the worker sends for string text) or,
        on rejection, the local fallback becomes the output, and processing
        ends. `id` is the one `ProcessText` returned for the same call, as
        `ProcessAnsweredByWorker` and `ProcessWithWorkerFault` pass it. */
    method ResumeProcessText(text: string, op: string, id: string, host: WorkerHost)
      requires host.instance != null && OutcomeOf(host.instance.settlements, id).Some?
      requires OutcomeOf(host.instance.settlements, id).value.Resolved? ==>
                 OutcomeOf(host.instance.settlements, id).value.value.Str?
      modifies this
      ensures input == old(input) && operation == old(operation) && !isProcessing
      ensures var o := OutcomeOf(host.instance.settlements, id).value;
              output == if o.Resolved? then o.value.s else Fallback(op, text)
    {
      var o := OutcomeOf(host.instance.settlements, id).value;
      output := if o.Resolved? then o.value.s else Fallback(op, text);
      isProcessing := false;
    }

    /** `handleSaveToHistory`: saves only when input and output are both non-empty. */
    method SaveToHistory(id: string, timestamp: int)
      requires Valid()
      modifies history, history.storage.store
      ensures Valid()
      ensures input != "" && output != "" ==>
                && history.entries == Added(old(history.storage.GetAll()), Entry(id, timestamp, DemoState(input, output, operation)), 20)
                && history.currentIndex == 0
                && history.storage.store.items
                   == old(history.storage.store.items)["demo-tool-history" := Parsed(history.entries)]
      ensures !(input != "" && output != "") ==>
                history.entries == old(history.entries) && history.currentIndex == old(history.currentIndex)
                && history.storage.store.items == old(history.storage.store.items)
    {
      if input != "" && output != "" {
        history.Add(DemoState(input, output, operation), id, timestamp);
      }
    }

    /** `handleHistorySelect(entry)`: loads the entry's state; the cursor
        does not move. */
    method HistorySelect(entry: Entry<DemoState>)
      modifies this
      ensures input == entry.data.input && output == entry.data.output && operation == entry.data.operation
      ensures isProcessing == old(isProcessing)
    {
      input := entry.data.input;
      output := entry.data.output;
      operation := entry.data.operation;
    }

    /** `handleUndo`: the fields change only when undo hands back a state. */
    method Undo()
      requires Valid()
      modifies this, history
      ensures Valid()
      ensures var (r, i) := UndoStep(old(history.entries), old(history.currentIndex), true);
              && history.currentIndex == i && history.entries == old(history.entries)
              && (r.Some? ==> input == r.value.input && output == r.value.output && operation == r.value.operation)
              && (r.None? ==> input == old(input) && output == old(output) && operation == old(operation))
      ensures isProcessing == old(isProcessing)
    {
      var state := history.Undo();
      if state.Some? {
        input := state.value.input;
        output := state.value.output;
        operation := state.value.operation;
      }
    }

    /** `handleRedo`: the fields change only when redo hands back a state. */
    method Redo()
      requires Valid()
      modifies this, history
      ensures Valid()
      ensures var (r, i) := RedoStep(old(history.entries), old(history.currentIndex), true);
              && history.currentIndex == i && history.entries == old(history.entries)
              && (r.Some? ==> input == r.value.input && output == r.value.output && operation == r.value.operation)
              && (r.None? ==> input == old(input) && output == old(output) && operation == old(operation))
      ensures isProcessing == old(isProcessing)
    {
      var state := history.Redo();
      if state.Some? {
        input := state.value.input;
        output := state.value.output;
        operation := state.value.operation;
      }
    }
  }

  /** A whole `processText` call on non-empty text for one of the tool's
      operations, answered by the worker script: the request is posted, the
      worker's reply is handled, and the call resumes. Whether or not the
      worker could be built, the output is the local transform's. */
  method ProcessAnsweredByWorker(tool: DemoTool, host: WorkerHost, text: string, op: Operation,
                                 canCreate: bool, typeErrorText: string)
    requires host.Valid() && text != ""
    modifies tool, host, host.instance
    ensures host.Valid()
    ensures tool.output == Fallback(op.Name(), text) && !tool.isProcessing
  {
    var requested := tool.ProcessText(text, op.Name(), host, canCreate);
    if requested.Some? {
      AnswerAndResume(tool, host, text, op, requested.value, typeErrorText);
    }
  }

  /** The second half of `ProcessAnsweredByWorker`: the worker script answers
      the pending request `id` for `text`, the manager settles it with that
      reply, and the call resumes with the local transform's text. */
  method AnswerAndResume(tool: DemoTool, host: WorkerHost, text: string, op: Operation,
                         id: string, typeErrorText: string)
    requires host.Valid() && host.instance != null && id in host.instance.pending
    modifies tool, host.instance
    ensures host.Valid()
    ensures host.instance.pending == Sequences.RemoveFirst(old(host.instance.pending), id)
    ensures OutcomeOf(host.instance.settlements, id) == Some(Resolved(Str(Fallback(op.Name(), text))))
    ensures tool.output == Fallback(op.Name(), text) && !tool.isProcessing
  {
    var worker := host.instance;
    var reply := WorkerScript.Respond(WorkerMessage(id, op.Name(), Present(Str(text))), typeErrorText);
    WorkerAgreesWithFallback(op, text, id, typeErrorText);
    worker.HandleMessage(reply);
    assert worker.settlements[|worker.settlements| - 1] == Settlement(id, Settle(reply));
    assert OutcomeOf(worker.settlements, id) == Some(Settle(reply));
    tool.ResumeProcessText(text, op.Name(), id, host);
  }

  /** The same call when the worker faults instead of answering: every
      request pending at the fault, the new one included, is rejected with
      "Worker error" in insertion order, the table is emptied, and the
      output is again the local transform's. `requested` is the id
      `ProcessText` posted under, if any. */
  method ProcessWithWorkerFault(tool: DemoTool, host: WorkerHost, text: string, op: string, canCreate: bool)
    returns (requested: Option<string>)
    requires host.Valid() && text != ""
    modifies tool, host, host.instance
    ensures host.Valid()
    ensures tool.output == Fallback(op, text) && !tool.isProcessing
    ensures host.instance != null && host.instance.pending == []
    ensures requested.Some? <==> host.instance.available
    ensures requested.Some? ==>
              OutcomeOf(host.instance.settlements, requested.value) == Some(Rejected("Worker error"))
    ensures old(host.instance) != null ==>
              && host.instance == old(host.instance)
              && host.instance.settlements
                 == old(host.instance.settlements)
                    + RejectAll(old(host.instance.pending) + (if requested.Some? then [requested.value] else []),
                                "Worker error")
    ensures old(host.instance) == null ==>
              host.instance.settlements
              == RejectAll(if requested.Some? then [requested.value] else [], "Worker error")
  {
    requested := tool.ProcessText(text, op, host, canCreate);
    if requested.Some? {
      var worker := host.instance;
      var id := requested.value;
      assert host.instance == worker && worker.Valid();
      OutcomeOfRejectAll(worker.settlements, worker.pending, "Worker error", id);
      worker.HandleError();
      tool.ResumeProcessText(text, op, id, host);
    } else {
      assert host.instance.pending == [];
    }
  }
}
