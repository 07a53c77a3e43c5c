/** The page-side correlation table for worker requests (`WorkerManager`)
    and the process-wide lazily built instance (`getWorker`,
    `terminateWorker`). Promises are replaced by a log of settlements: each
    call of a stored `resolve` or `reject` appends one entry. The worker
    itself is an availability flag and the list of messages handed to it. */
module WorkerManagement {
  import opened Wrappers
  import opened Messages
  import Text
  import Sequences

  /** The id of the `n`-th request a manager issues: `msg-${n}`. */
  function MsgId(n: nat): (id: string)
    ensures |id| > 4 && id[..4] == "msg-"
  {
    "msg-" + Text.Decimal(n)
  }

  /** Distinct counters give distinct ids. */
  lemma MsgIdInjective(a: nat, b: nat)
    requires MsgId(a) == MsgId(b)
    ensures a == b
  {
    assert MsgId(a)[4..] == Text.Decimal(a);
    assert MsgId(b)[4..] == Text.Decimal(b);
    Text.DecimalInjective(a, b);
  }

  /** The ids issued before the counter reached `n`. */
  ghost function IssuedBefore(n: nat): (ids: seq<string>)
  {
    seq(n, k requires 0 <= k => MsgId(k))
  }

  /** The id a manager issues next was never issued before. */
  lemma NextIdIsNew(n: nat)
    ensures MsgId(n) !in IssuedBefore(n)
  {
    forall k | 0 <= k < n
      ensures IssuedBefore(n)[k] != MsgId(n)
    {
      if MsgId(k) == MsgId(n) {
        MsgIdInjective(k, n);
      }
    }
  }

  /** How a promise returned by `postMessage` settled. */
  datatype Outcome = Resolved(value: JsValue) | Rejected(message: string)

  /** One call of the `resolve` or `reject` stored under `id`. */
  datatype Settlement = Settlement(id: string, outcome: Outcome)

  /** What `postMessage` does at once: either the request went out under a
      new id, or the returned promise is rejected before anything is sent. */
  datatype PostResult = Posted(id: string) | RejectedAtOnce(message: string)

  /** How a reply settles its request: "success" resolves with `result`;
      any other type rejects with `error`, or with "Worker error" when the
      reply has no error text (absent or empty, both falsy). */
  function Settle(resp: WorkerResponse): (o: Outcome)
    ensures o.Resolved? <==> resp.kind == "success"
    ensures o.Resolved? ==> o.value == resp.result
    ensures o.Rejected? && resp.error.Some? && resp.error.value != "" ==> o.message == resp.error.value
    ensures o.Rejected? && (resp.error.None? || resp.error.value == "") ==> o.message == "Worker error"
  {
    if resp.kind == "success" then Resolved(resp.result)
    else if resp.error.Some? && resp.error.value != "" then Rejected(resp.error.value)
    else Rejected("Worker error")
  }

  /** The settlements of rejecting every id of `ids`, in order, with `message`. */
  function RejectAll(ids: seq<string>, message: string): (r: seq<Settlement>)
    ensures |r| == |ids|
    ensures forall i :: 0 <= i < |ids| ==> r[i] == Settlement(ids[i], Rejected(message))
  {
    seq(|ids|, i requires 0 <= i < |ids| => Settlement(ids[i], Rejected(message)))
  }

  /** The ids named by a list of settlements. */
  function SettledIds(log: seq<Settlement>): (r: seq<string>)
    ensures |r| == |log| && forall i :: 0 <= i < |log| ==> r[i] == log[i].id
  {
    seq(|log|, i requires 0 <= i < |log| => log[i].id)
  }

  /** How the log says the promise of `id` settled: its last settlement,
      the only one while the table invariant holds; none when `id` was
      never settled. */
  function OutcomeOf(log: seq<Settlement>, id: string): (o: Option<Outcome>)
    ensures o.None? <==> id !in SettledIds(log)
  {
    if log == [] then None
    else
      var init := log[..|log| - 1];
      assert SettledIds(log) == SettledIds(init) + [log[|log| - 1].id];
      if log[|log| - 1].id == id then Some(log[|log| - 1].outcome)
      else OutcomeOf(init, id)
  }

  /** One step of `OutcomeOf`: a last settlement for another id is skipped. */
  lemma OutcomeOfSkip(log: seq<Settlement>, id: string)
    requires log != [] && log[|log| - 1].id != id
    ensures OutcomeOf(log, id) == OutcomeOf(log[..|log| - 1], id)
  {
  }

  /** Rejecting a list of ids that holds `id` settles `id` with that rejection. */
  lemma {:induction false} OutcomeOfRejectAll(log: seq<Settlement>, ids: seq<string>, message: string, id: string)
    requires id in ids
    ensures OutcomeOf(log + RejectAll(ids, message), id) == Some(Rejected(message))
  {
    var all := log + RejectAll(ids, message);
    var last := ids[|ids| - 1];
    assert all[|all| - 1] == Settlement(last, Rejected(message));
    if last == id {
      assert OutcomeOf(all, id) == Some(Rejected(message));
    } else {
      var init := ids[..|ids| - 1];
      assert ids == init + [last];
      RejectAllPrefix(log, ids, message);
      OutcomeOfRejectAll(log, init, message, id);
      OutcomeOfSkip(all, id);
    }
  }

  /** Dropping the last rejection leaves the rejections of all but the last id. */
  lemma RejectAllPrefix(log: seq<Settlement>, ids: seq<string>, message: string)
    requires ids != []
    ensures (log + RejectAll(ids, message))[..|log| + |ids| - 1] == log + RejectAll(ids[..|ids| - 1], message)
  {
    var all := log + RejectAll(ids, message);
    var shorter := log + RejectAll(ids[..|ids| - 1], message);
    forall k | 0 <= k < |shorter|
      ensures all[k] == shorter[k]
    {
      if k >= |log| {
        assert ids[..|ids| - 1][k - |log|] == ids[k - |log|];
      }
    }
  }

  /** The manager's invariant over its field values: the `n` messages sent
      so far carry the ids `msg-0` to `msg-<n-1>`, in order; the pending ids
      and the settlements are as `PendingValid` says; and without a worker
      nothing is pending. */
  ghost predicate TableValid(n: nat, pending: seq<string>, sent: seq<WorkerMessage>, log: seq<Settlement>, available: bool)
  {
    && |sent| == n
    && (forall k :: 0 <= k < n ==> sent[k].id == MsgId(k))
    && PendingValid(n, pending, log)
    && (!available ==> pending == [])
  }

  /** Pending ids are distinct, settled ids are distinct, both are among the
      `n` issued ids, no pending id is settled, and every issued id is
      pending or settled. */
  ghost predicate PendingValid(n: nat, ids: seq<string>, log: seq<Settlement>)
  {
    && (forall i, j :: 0 <= i < j < |ids| ==> ids[i] != ids[j])
    && (forall i, j :: 0 <= i < j < |log| ==> log[i].id != log[j].id)
    && (forall i :: 0 <= i < |ids| ==> ids[i] in IssuedBefore(n) && ids[i] !in SettledIds(log))
    && (forall i :: 0 <= i < |log| ==> log[i].id in IssuedBefore(n))
    && (forall k :: 0 <= k < n ==> MsgId(k) in ids || MsgId(k) in SettledIds(log))
  }

  /** `TableValid` survives sending one more message under the next id:
      `n'`, `pending'` and `sent'` are the fields after the send. */
  lemma PostKeepsValid(n: nat, pending: seq<string>, sent: seq<WorkerMessage>, log: seq<Settlement>,
                       msg: WorkerMessage, n': nat, pending': seq<string>, sent': seq<WorkerMessage>)
    requires TableValid(n, pending, sent, log, true) && msg.id == MsgId(n)
    requires n' == n + 1 && pending' == pending + [msg.id] && sent' == sent + [msg]
    ensures TableValid(n', pending', sent', log, true)
  {
    IssueKeepsValid(pending, log, n);
    assert PendingValid(n', pending', log);
    forall k | 0 <= k < n'
      ensures sent'[k].id == MsgId(k)
    {
      if k < n {
        assert sent'[k] == sent[k];
      } else {
        assert k == n && sent'[k] == msg;
      }
    }
  }

  class WorkerManager {
    /** The script the worker was built from. */
    const workerPath: string
    /** `worker !== null`. */
    var available: bool
    /** The counter behind `msg-<n>` ids. */
    var messageId: nat
    /** The keys of `pendingMessages`, in insertion order (the order `forEach` visits them). */
    var pending: seq<string>
    /** Every message handed to `worker.postMessage`, in order. */
    var sent: seq<WorkerMessage>
    /** Every settlement of a promise returned by `postMessage` under an id, in order. */
    var settlements: seq<Settlement>

    /** The table's invariant: ids are issued in counter order and each
        issued id is either still pending or settled exactly once. */
    ghost predicate Valid()
      reads this
    {
      TableValid(messageId, pending, sent, settlements, available)
    }

    /** `new WorkerManager(workerPath)`; `canCreate` says whether
        `new Worker(...)` succeeded (a failure is caught and logged). */
    constructor(workerPath: string, canCreate: bool)
      ensures Valid()
      ensures this.workerPath == workerPath && available == canCreate
      ensures messageId == 0 && pending == [] && sent == [] && settlements == []
    {
      this.workerPath := workerPath;
      available := canCreate;
      messageId := 0;
      pending := [];
      sent := [];
      settlements := [];
    }

    /** `postMessage(type, payload)`. */
    method PostMessage(kind: string, payload: Payload) returns (r: PostResult)
      requires Valid()
      modifies this
      ensures Valid()
      ensures !old(available) ==> r == RejectedAtOnce("Worker not available") && unchanged(this)
      ensures old(available) ==>
                && r == Posted(MsgId(old(messageId)))
                && r.id !in old(IssuedBefore(messageId))
                && messageId == old(messageId) + 1
                && pending == old(pending) + [r.id]
                && sent == old(sent) + [WorkerMessage(r.id, kind, payload)]
                && settlements == old(settlements)
                && available
    {
      if !available {
        return RejectedAtOnce("Worker not available");
      }
      var id := MsgId(messageId);
      NextIdIsNew(messageId);
      messageId := messageId + 1;
      pending := pending + [id];
      sent := sent + [WorkerMessage(id, kind, payload)];
      r := Posted(id);
      PostKeepsValid(old(messageId), old(pending), old(sent), settlements,
                     WorkerMessage(id, kind, payload), messageId, pending, sent);
    }

    /** `handleMessage`: a reply for an id that is not pending is dropped; a
        reply for a pending id removes its one slot from the table and
        settles it once. */
    method HandleMessage(resp: WorkerResponse)
      requires Valid()
      modifies this
      ensures Valid()
      ensures resp.id !in old(pending) ==> unchanged(this)
      ensures resp.id in old(pending) ==>
                && pending == Sequences.RemoveFirst(old(pending), resp.id)
                && settlements == old(settlements) + [Settlement(resp.id, Settle(resp))]
      ensures resp.id !in pending
      ensures available == old(available) && messageId == old(messageId) && sent == old(sent)
    {
      var j := Sequences.FirstIndex(pending, (id: string) => id == resp.id);
      if j < 0 {
        return;
      }
      SettleOneKeepsValid(pending, j, settlements, Settle(resp), messageId);
      Sequences.RemoveFirstAt(pending, resp.id, j);
      pending := pending[..j] + pending[j + 1..];
      settlements := settlements + [Settlement(resp.id, Settle(resp))];
      assert available;
      assert SettledIds(settlements)[|settlements| - 1] == resp.id;
    }

    /** `handleError`: a fault of the worker rejects every pending request
        with "Worker error", in insertion order, and empties the table. */
    method HandleError()
      requires Valid()
      modifies this
      ensures Valid()
      ensures settlements == old(settlements) + RejectAll(old(pending), "Worker error")
      ensures pending == []
      ensures available == old(available) && messageId == old(messageId) && sent == old(sent)
    {
      RejectPending("Worker error");
    }

    /** `terminate`: releases the worker, rejects every pending request with
        "Worker terminated" and empties the table. A second call changes
        nothing, and every later `postMessage` is rejected at once. */
    method Terminate()
      requires Valid()
      modifies this
      ensures Valid()
      ensures !available
      ensures settlements == old(settlements) + RejectAll(old(pending), "Worker terminated")
      ensures pending == []
      ensures messageId == old(messageId) && sent == old(sent)
      ensures !old(available) ==> settlements == old(settlements)
    {
      RejectPending("Worker terminated");
      available := false;
      if !old(available) {
        assert old(pending) == [] && RejectAll(old(pending), "Worker terminated") == [];
      }
    }

    /** The `forEach(reject)` then `clear()` shared by `handleError` and `terminate`. */
    method RejectPending(message: string)
      requires Valid()
      modifies this
      ensures Valid()
      ensures settlements == old(settlements) + RejectAll(old(pending), message)
      ensures pending == []
      ensures available == old(available) && messageId == old(messageId) && sent == old(sent)
    {
      var i := 0;
      while i < |pending|
        invariant 0 <= i <= |pending|
        invariant settlements == old(settlements) + RejectAll(pending[..i], message)
        invariant pending == old(pending) && available == old(available)
        invariant messageId == old(messageId) && sent == old(sent)
      {
        assert pending[..i + 1] == pending[..i] + [pending[i]];
        settlements := settlements + [Settlement(pending[i], Rejected(message))];
        i := i + 1;
      }
      assert pending[..i] == pending;
      ghost var was := pending;
      pending := [];
      RejectAllKeepsValid(old(settlements), was, message, messageId);
    }
  }

  /** The module-level `workerInstance` behind `getWorker`/`terminateWorker`. */
  class WorkerHost {
    var instance: WorkerManager?

    ghost predicate Valid()
      reads this, instance
    {
      instance != null ==> instance.Valid()
    }

    constructor()
      ensures Valid() && instance == null
    {
      instance := null;
    }

    /** `getWorker()`: the existing manager, or a fresh one for
        "/cswx/worker.js" (`canCreate` tells whether its worker could be built). */
    method GetWorker(canCreate: bool) returns (m: WorkerManager)
      requires Valid()
      modifies this
      ensures Valid() && instance == m
      ensures old(instance) != null ==> m == old(instance)
      ensures old(instance) == null ==>
                && fresh(m) && m.workerPath == "/cswx/worker.js" && m.available == canCreate
                && m.messageId == 0 && m.pending == [] && m.sent == [] && m.settlements == []
    {
      if instance == null {
        instance := new WorkerManager("/cswx/worker.js", canCreate);
      }
      m := instance;
    }

    /** `terminateWorker()`: terminates the current manager, if any, and
        forgets it, so that the next `getWorker` builds a new one. */
    method TerminateWorker()
      requires Valid()
      modifies this, instance
      ensures Valid() && instance == null
      ensures old(instance) != null ==>
                && old(instance).Valid()
                && !old(instance).available
                && old(instance).pending == []
                && old(instance).settlements
                   == old(instance.settlements) + RejectAll(old(instance.pending), "Worker terminated")
                && old(instance).messageId == old(instance.messageId)
                && old(instance).sent == old(instance.sent)
    {
      if instance != null {
        instance.Terminate();
        instance := null;
      }
    }
  }

  /** `PendingValid` survives moving every pending id into the log. */
  lemma RejectAllKeepsValid(log: seq<Settlement>, ids: seq<string>, message: string, n: nat)
    requires PendingValid(n, ids, log)
    ensures PendingValid(n, [], log + RejectAll(ids, message))
  {
    var log' := log + RejectAll(ids, message);
    forall i, j | 0 <= i < j < |log'| ensures log'[i].id != log'[j].id {
      if j >= |log| && i < |log| {
        assert log'[j].id == ids[j - |log|];
        assert log[i].id == SettledIds(log)[i];
      }
    }
    assert SettledIds(log') == SettledIds(log) + ids;
  }

  /** `PendingValid` survives settling the pending id at `j`. */
  lemma SettleOneKeepsValid(ids: seq<string>, j: nat, log: seq<Settlement>, o: Outcome, n: nat)
    requires j < |ids|
    requires PendingValid(n, ids, log)
    ensures PendingValid(n, ids[..j] + ids[j + 1..], log + [Settlement(ids[j], o)])
  {
    var ids', log' := ids[..j] + ids[j + 1..], log + [Settlement(ids[j], o)];
    DropKeepsDistinct(ids, j);
    assert SettledIds(log') == SettledIds(log) + [ids[j]];
    forall i, i' | 0 <= i < i' < |log'| ensures log'[i].id != log'[i'].id {
      if i' == |log| {
        assert log[i].id == SettledIds(log)[i];
      }
    }
    forall i | 0 <= i < |ids'|
      ensures ids'[i] in IssuedBefore(n) && ids'[i] !in SettledIds(log')
    {
      assert ids'[i] in ids' && ids'[i] in ids;
    }
    forall k | 0 <= k < n ensures MsgId(k) in ids' || MsgId(k) in SettledIds(log') {
      if MsgId(k) in ids && MsgId(k) != ids[j] {
        assert MsgId(k) in ids';
      }
    }
  }

  /** Dropping slot `j` of a list without repeats keeps it without repeats
      and removes that one element and no other. */
  lemma DropKeepsDistinct(ids: seq<string>, j: nat)
    requires j < |ids|
    requires forall i, i' :: 0 <= i < i' < |ids| ==> ids[i] != ids[i']
    ensures var ids' := ids[..j] + ids[j + 1..];
            && (forall i, i' :: 0 <= i < i' < |ids'| ==> ids'[i] != ids'[i'])
            && (forall x :: x in ids' <==> x in ids && x != ids[j])
  {
    var ids' := ids[..j] + ids[j + 1..];
    forall i | 0 <= i < |ids'| ensures ids'[i] == ids[if i < j then i else i + 1] {
    }
    forall i, i' | 0 <= i < i' < |ids'| ensures ids'[i] != ids'[i'] {
      var a := if i < j then i else i + 1;
      var b := if i' < j then i' else i' + 1;
      assert ids'[i] == ids[a] && ids'[i'] == ids[b] && a < b;
    }
    forall x ensures x in ids' <==> x in ids && x != ids[j] {
      if x in ids && x != ids[j] {
        var m :| 0 <= m < |ids| && ids[m] == x;
        assert ids'[if m < j then m else m - 1] == x;
      }
      if x in ids' {
        var m :| 0 <= m < |ids'| && ids'[m] == x;
        var a := if m < j then m else m + 1;
        assert ids[a] == x && a != j;
      }
    }
  }

  /** `PendingValid` survives issuing the next id and making it pending. */
  lemma IssueKeepsValid(ids: seq<string>, log: seq<Settlement>, n: nat)
    requires PendingValid(n, ids, log)
    ensures PendingValid(n + 1, ids + [MsgId(n)], log)
  {
    var id := MsgId(n);
    NextIdIsNew(n);
    assert IssuedBefore(n + 1) == IssuedBefore(n) + [id];
    assert id !in SettledIds(log);
    var ids' := ids + [id];
    forall k | 0 <= k < n + 1 ensures MsgId(k) in ids' || MsgId(k) in SettledIds(log) {
      if k == n {
        assert ids'[|ids|] == id;
      } else {
        assert MsgId(k) in ids || MsgId(k) in SettledIds(log);
      }
    }
  }
}

/** A caller's view: two requests answered by the worker script in the
    opposite order still settle each with its own reply, an answer for an
    id already settled is dropped, and `terminate` rejects what is pending
    and every later request. */
module WorkerManagementClient {
  import opened Wrappers
  import Sequences
  import opened Messages
  import opened WorkerManagement
  import WorkerScript

  /** Two requests posted to a fresh manager wait under `msg-0` and `msg-1`. */
  method PostTwo(a: string, b: string) returns (m: WorkerManager)
    ensures fresh(m) && m.Valid()
    ensures m.pending == [MsgId(0), MsgId(1)] && m.settlements == []
  {
    m := new WorkerManager("/cswx/worker.js", true);
    var r0 := m.PostMessage("reverse", Present(Str(a)));
    var r1 := m.PostMessage("process", Present(Str(b)));
  }

  /** The first two ids are `msg-0` and `msg-1`. */
  lemma FirstIdsDiffer()
    ensures MsgId(0) == "msg-0" && MsgId(1) == "msg-1" && MsgId(0) != MsgId(1)
  {
  }

  /** The worker script's replies to the two requests of `PostTwo`. */
  lemma WorkerReplies(a: string, b: string, typeErrorText: string)
    ensures WorkerScript.Respond(WorkerMessage(MsgId(0), "reverse", Present(Str(a))), typeErrorText)
            == WorkerResponse(MsgId(0), "success", Str(Sequences.Reverse(a)), None)
    ensures WorkerScript.Respond(WorkerMessage(MsgId(1), "process", Present(Str(b))), typeErrorText)
            == WorkerResponse(MsgId(1), "success", Str(b), None)
  {
    WorkerScript.ReverseReply(MsgId(0), a, typeErrorText);
    WorkerScript.ProcessReply(MsgId(1), Str(b), typeErrorText);
  }

  /** The worker script answers the requests of `PostTwo`; its replies
      arrive in the opposite order, and the first one twice. */
  method OutOfOrderReplies(a: string, b: string, typeErrorText: string)
    returns (log: seq<Settlement>)
    ensures log == [Settlement(MsgId(1), Resolved(Str(b))),
                    Settlement(MsgId(0), Resolved(Str(Sequences.Reverse(a))))]
  {
    var m := PostTwo(a, b);
    FirstIdsDiffer();
    var reply1 := WorkerScript.Respond(WorkerMessage(MsgId(1), "process", Present(Str(b))), typeErrorText);
    var reply0 := WorkerScript.Respond(WorkerMessage(MsgId(0), "reverse", Present(Str(a))), typeErrorText);
    WorkerReplies(a, b, typeErrorText);
    m.HandleMessage(reply1);
    assert m.pending == [MsgId(0)];
    m.HandleMessage(reply0);
    m.HandleMessage(reply0);
    log := m.settlements;
  }

  method TerminateThenPost(a: string)
    returns (log: seq<Settlement>, late: PostResult)
    ensures log == [Settlement(MsgId(0), Rejected("Worker terminated"))]
    ensures late == RejectedAtOnce("Worker not available")
  {
    var m := new WorkerManager("/cswx/worker.js", true);
    var r0 := m.PostMessage("reverse", Present(Str(a)));
    m.Terminate();
    late := m.PostMessage("reverse", Present(Str(a)));
    log := m.settlements;
  }
}
