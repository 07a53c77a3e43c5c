/** The background worker script: one `message` handler that dispatches on
    the request's operation name and posts exactly one reply. */
module WorkerScript {
  import opened Wrappers
  import opened Messages
  import Sequences
  import Text

  /** The operation names the `switch` recognises. */
  const KnownOperations: seq<string> := ["reverse", "uppercase", "lowercase", "process"]

  /** Why computing a result threw: an unrecognised operation name, or a
      `TypeError` from reading `payload.text` or calling a string method on
      something that is not a string. */
  datatype Fault = UnknownOperation(name: string) | TypeError

  /** What the `try` block computes: a result, or the exception it threw. */
  datatype Computed = Value(result: JsValue) | Thrown(fault: Fault)

  /** Applies a string transform to `payload.text`; any non-string throws. */
  function OnText(payload: Payload, f: string -> string): (r: Computed)
    ensures r.Value? <==> payload.Present? && payload.text.Str?
    ensures r.Value? ==> r.result == Str(f(payload.text.s))
    ensures r.Thrown? ==> r.fault == TypeError
  {
    match payload
    case Absent => Thrown(TypeError)
    case Present(Str(s)) => Value(Str(f(s)))
    case Present(_) => Thrown(TypeError)
  }

  /** `processHeavyOperation`: the placeholder returns `payload.text` as it is. */
  function ProcessHeavyOperation(payload: Payload): (r: Computed)
    ensures payload.Present? ==> r == Value(payload.text)
    ensures payload.Absent? ==> r == Thrown(TypeError)
  {
    match payload
    case Absent => Thrown(TypeError)
    case Present(t) => Value(t)
  }

  /** The `switch` on the operation name. */
  function Compute(kind: string, payload: Payload): (r: Computed)
    ensures kind !in KnownOperations ==> r == Thrown(UnknownOperation(kind))
    ensures kind in KnownOperations ==> (r.Thrown? <==> Throws(kind, payload))
    ensures kind in KnownOperations && r.Thrown? ==> r.fault == TypeError
    ensures kind == "reverse" && r.Value? ==> r.result == Str(Sequences.Reverse(payload.text.s))
    ensures kind == "process" && r.Value? ==> r.result == payload.text
  {
    if kind == "reverse" then OnText(payload, s => Sequences.Reverse(s))
    else if kind == "uppercase" then OnText(payload, Text.Upper)
    else if kind == "lowercase" then OnText(payload, Text.Lower)
    else if kind == "process" then ProcessHeavyOperation(payload)
    else Thrown(UnknownOperation(kind))
  }

  /** `error.message` of the thrown exception. The text of a `TypeError`
      belongs to the JavaScript engine and is given as `typeErrorText`. */
  function FaultMessage(f: Fault, typeErrorText: string): (m: string)
    ensures f.UnknownOperation? ==>
              |m| == 24 + |f.name| && m[..24] == "Unknown operation type: " && m[24..] == f.name
    ensures f.TypeError? ==> m == typeErrorText
  {
    match f
    case UnknownOperation(name) => "Unknown operation type: " + name
    case TypeError => typeErrorText
  }

  /** When a recognised operation still throws: the payload is missing, or
      an operation other than `process` finds no string in `payload.text`. */
  predicate Throws(kind: string, payload: Payload)
  {
    payload.Absent? || (kind != "process" && !payload.text.Str?)
  }

  /** The one reply the handler posts for `msg`. */
  function Respond(msg: WorkerMessage, typeErrorText: string): (r: WorkerResponse)
    ensures r.id == msg.id
    ensures r.kind == "success" || r.kind == "error"
    ensures r.kind == "success" <==> msg.kind in KnownOperations && !Throws(msg.kind, msg.payload)
    ensures r.kind == "success" ==> r.error == None
    ensures r.kind == "error" ==> r.result == Undefined && r.error.Some?
    ensures msg.kind !in KnownOperations ==>
              r.error == Some("Unknown operation type: " + msg.kind)
    ensures msg.kind in KnownOperations && Throws(msg.kind, msg.payload) ==>
              r.error == Some(typeErrorText)
  {
    match Compute(msg.kind, msg.payload)
    case Value(v) => WorkerResponse(msg.id, "success", v, None)
    case Thrown(f) => WorkerResponse(msg.id, "error", Undefined, Some(FaultMessage(f, typeErrorText)))
  }

  /** `reverse` replies with the text reversed, and reversing that reply's
      text again gives the request's text back. */
  lemma ReverseReply(id: string, text: string, typeErrorText: string)
    ensures var r := Respond(WorkerMessage(id, "reverse", Present(Str(text))), typeErrorText);
            r == WorkerResponse(id, "success", Str(Sequences.Reverse(text)), None)
            && Respond(WorkerMessage(id, "reverse", Present(r.result)), typeErrorText).result == Str(text)
  {
    Sequences.ReverseInvolutive(text);
  }

  /** `process` replies with `payload.text` unchanged, whatever it holds. */
  lemma ProcessReply(id: string, text: JsValue, typeErrorText: string)
    ensures Respond(WorkerMessage(id, "process", Present(text)), typeErrorText)
            == WorkerResponse(id, "success", text, None)
  {
  }

  /** The two scenarios of the protocol: "abc" reversed, and a bogus name. */
  lemma Scenarios(typeErrorText: string)
    ensures Respond(WorkerMessage("msg-0", "reverse", Present(Str("abc"))), typeErrorText).result == Str("cba")
    ensures Respond(WorkerMessage("msg-1", "bogus", Absent), typeErrorText)
            == WorkerResponse("msg-1", "error", Undefined, Some("Unknown operation type: bogus"))
  {
    assert Sequences.Reverse("abc") == "cba" by {
      assert Sequences.Reverse("c") == "c";
      assert Sequences.Reverse("bc") == "cb";
    }
    assert "bogus"[0] == 'b' && "bogus"[1] == 'o';
    assert "bogus" !in KnownOperations;
    assert "Unknown operation type: " + "bogus" == "Unknown operation type: bogus";
  }
}
