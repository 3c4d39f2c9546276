/**
  The recorder the idempotency middleware puts between a handler and the client
  (captureResponseWriter), together with the part of net/http's ResponseWriter
  contract it leans on: the first status wins, and a write before any status
  sends 200.
 */
module ResponseCapture {

  newtype byte = b: int | 0 <= b < 256
  type Bytes = seq<byte>

  const STATUS_OK := 200

  // What has reached the client: status 0 means no header was sent yet.
  datatype Wire = Wire(status: int, body: Bytes)

  function SendHeader(w: Wire, code: int): Wire {
    if w.status != 0 then w else w.(status := code)
  }

  function SendBody(w: Wire, b: Bytes): Wire {
    Wire(if w.status == 0 then STATUS_OK else w.status, w.body + b)
  }

  // The server sends the implicit 200 when the handler returns without a header.
  function FinishWire(w: Wire): Wire {
    SendBody(w, [])
  }

  // net/http refuses any other code by panicking.
  predicate ValidCode(code: int) {
    100 <= code <= 999
  }

  // The recorder's fields next to what its inner writer has sent.
  datatype Capture = Capture(statusCode: int, body: Bytes, wire: Wire)

  const FRESH_CAPTURE := Capture(0, [], Wire(0, []))

  function CaptureHeader(c: Capture, code: int): Capture {
    if c.statusCode != 0 then c
    else Capture(code, c.body, if ValidCode(code) then SendHeader(c.wire, code) else c.wire)
  }

  function CaptureWrite(c: Capture, b: Bytes): Capture {
    Capture(if c.statusCode == 0 then STATUS_OK else c.statusCode, c.body + b, SendBody(c.wire, b))
  }

  // The middleware's own reading of a status that was never set.
  function FinishCapture(c: Capture): Capture {
    Capture(if c.statusCode == 0 then STATUS_OK else c.statusCode, c.body, FinishWire(c.wire))
  }

  // Recorder and wire agree.
  predicate Mirrors(c: Capture) {
    c.statusCode == c.wire.status && c.body == c.wire.body
  }

  // One thing a handler does to its ResponseWriter.
  datatype HandlerOp = Header(code: int) | Write(data: Bytes)

  // The codes a handler may use in this model: final statuses.
  predicate FinalCode(code: int) {
    200 <= code <= 999
  }

  predicate FinalOps(ops: seq<HandlerOp>) {
    forall i | 0 <= i < |ops| :: ops[i].Header? ==> FinalCode(ops[i].code)
  }

  function Play(ops: seq<HandlerOp>): Capture {
    if ops == [] then FRESH_CAPTURE
    else
      var before := Play(ops[..|ops| - 1]);
      match ops[|ops| - 1]
      case Header(code) => CaptureHeader(before, code)
      case Write(data) => CaptureWrite(before, data)
  }

  // The status a client is promised: the first one the handler chose, 200 if a
  // write came first or nothing was chosen.
  function FirstStatus(ops: seq<HandlerOp>): int {
    if ops == [] || ops[0].Write? then STATUS_OK else ops[0].code
  }

  // The body a client is promised: every written chunk, in order.
  function AllWrites(ops: seq<HandlerOp>): Bytes {
    if ops == [] then []
    else AllWrites(ops[..|ops| - 1]) + (if ops[|ops| - 1].Write? then ops[|ops| - 1].data else [])
  }

  /** All that is written, in order. */
  lemma {:induction false} WritesInOrder(ops: seq<HandlerOp>, more: seq<HandlerOp>, code: int, data: Bytes)
    ensures AllWrites(ops + more) == AllWrites(ops) + AllWrites(more)
    ensures AllWrites([Write(data)]) == data && AllWrites([Header(code)]) == []
    decreases |more|
  {
    if more == [] {
      assert ops + more == ops;
    } else {
      var n := |more| - 1;
      WritesInOrder(ops, more[..n], code, data);
      assert (ops + more)[..|ops + more| - 1] == ops + more[..n];
    }
    assert [Write(data)][..0] == [] && [Header(code)][..0] == [];
  }

  lemma {:induction false} PlayState(ops: seq<HandlerOp>)
    requires FinalOps(ops)
    ensures Mirrors(Play(ops))
    ensures Play(ops).statusCode == if ops == [] then 0 else FirstStatus(ops)
    ensures Play(ops).body == AllWrites(ops)
    ensures ops != [] ==> Play(ops).statusCode == if ops[0].Header? then ops[0].code else 200
  {
    if ops == [] {
    } else {
      var n := |ops| - 1;
      PlayState(ops[..n]);
      assert n > 0 ==> ops[..n][0] == ops[0];
    }
  }

  /** Whatever a handler does, the recorder ends with exactly what the client got:
      the first status (or the implicit 200) and all written bytes. */
  lemma CaptureIsFaithful(ops: seq<HandlerOp>)
    requires FinalOps(ops)
    ensures var c := FinishCapture(Play(ops));
            Mirrors(c) && c.wire == Wire(FirstStatus(ops), AllWrites(ops))
  {
    PlayState(ops);
  }

  // ---------------------------------------------------------------- refused statuses

  // Header(0) leaves the recorder as if nothing was chosen.
  predicate NothingChosen(ops: seq<HandlerOp>) {
    forall i :: 0 <= i < |ops| ==> ops[i] == Header(0)
  }

  // The first choice is a status that net/http refuses, and the handler recovers.
  predicate RefusedFirst(ops: seq<HandlerOp>) {
    exists i :: 0 <= i < |ops| && RefusedAt(ops, i)
  }

  predicate RefusedAt(ops: seq<HandlerOp>, i: nat)
    requires i < |ops|
  {
    ops[i].Header? && ops[i].code != 0 && !ValidCode(ops[i].code) && NothingChosen(ops[..i])
  }

  lemma {:induction false} RefusedGrows(ops: seq<HandlerOp>)
    requires ops != []
    ensures var n := |ops| - 1; RefusedFirst(ops) <==> RefusedFirst(ops[..n]) || RefusedAt(ops, n)
  {
    var n := |ops| - 1;
    assert forall i: nat :: i < n ==> ops[..n][..i] == ops[..i];
    if RefusedFirst(ops[..n]) {
      var i :| 0 <= i < n && RefusedAt(ops[..n], i);
      assert RefusedAt(ops, i);
    }
    if RefusedFirst(ops) && !RefusedAt(ops, n) {
      var i :| 0 <= i < |ops| && RefusedAt(ops, i);
      assert RefusedAt(ops[..n], i);
    }
  }

  lemma {:induction false} PlayAny(ops: seq<HandlerOp>)
    requires forall i :: 0 <= i < |ops| && ops[i].Header? ==> !(100 <= ops[i].code < 200)
    ensures var c := Play(ops);
            && c.body == c.wire.body
            && (NothingChosen(ops) ==> c.statusCode == 0)
            && (RefusedFirst(ops) ==> c.statusCode != 0 && !ValidCode(c.statusCode) && c.wire.status in {0, STATUS_OK})
            && (!RefusedFirst(ops) ==> c.statusCode == c.wire.status && (c.statusCode == 0 ==> NothingChosen(ops)))
  {
    if ops != [] {
      var n := |ops| - 1;
      PlayAny(ops[..n]);
      RefusedGrows(ops);
      assert NothingChosen(ops) <==> NothingChosen(ops[..n]) && ops[n] == Header(0);
    }
  }

  /** For a handler that recovers from the panic on a refused status and goes on, the
      recorder still ends with what the client got, unless that status was its first
      choice: then it is recorded, and the client gets 200. */
  lemma CaptureIsFaithfulIff(ops: seq<HandlerOp>)
    requires forall i :: 0 <= i < |ops| && ops[i].Header? ==> !(100 <= ops[i].code < 200)
    ensures Mirrors(FinishCapture(Play(ops))) <==> !RefusedFirst(ops)
    ensures RefusedFirst(ops) ==> FinishCapture(Play(ops)).wire.status == STATUS_OK
  {
    PlayAny(ops);
  }

  // net/http's writer, as far as the recorder can observe it.
  class ResponseWriter {
    var sent: Wire

    constructor ()
      ensures sent == Wire(0, [])
    {
      sent := Wire(0, []);
    }

    method WriteHeader(code: int) returns (panicked: bool)
      modifies this
      ensures panicked <==> code < 100 || code > 999
      ensures sent == if panicked then old(sent) else SendHeader(old(sent), code)
    {
      panicked := code < 100 || code > 999;
      if !panicked && sent.status == 0 {
        sent := sent.(status := code);
      }
    }

    method Write(b: Bytes)
      modifies this
      ensures sent == SendBody(old(sent), b)
    {
      if sent.status == 0 {
        sent := sent.(status := STATUS_OK);
      }
      sent := sent.(body := sent.body + b);
    }
  }

  class CaptureResponseWriter {
    const inner: ResponseWriter
    var statusCode: int
    var body: Bytes

    constructor (inner: ResponseWriter)
      requires inner.sent == Wire(0, [])
      ensures this.inner == inner && State() == FRESH_CAPTURE
    {
      this.inner := inner;
      statusCode := 0;
      body := [];
    }

    ghost function State(): Capture
      reads this, inner
    {
      Capture(statusCode, body, inner.sent)
    }

    method WriteHeader(code: int) returns (panicked: bool)
      modifies this, inner
      ensures State() == CaptureHeader(old(State()), code)
      ensures panicked <==> old(statusCode) == 0 && (code < 100 || code > 999)
      ensures statusCode == (if old(statusCode) != 0 then old(statusCode) else code) && body == old(body)
      ensures inner.sent == if old(statusCode) == 0 && old(inner.sent.status) == 0 && !panicked
                            then Wire(code, old(inner.sent.body)) else old(inner.sent)
    {
      if statusCode != 0 {
        return false;
      }
      statusCode := code;
      panicked := inner.WriteHeader(code);
    }

    method Write(b: Bytes)
      modifies this, inner
      ensures State() == CaptureWrite(old(State()), b)
      ensures statusCode == (if old(statusCode) != 0 then old(statusCode) else 200) && body == old(body) + b
      ensures inner.sent == Wire(if old(inner.sent.status) != 0 then old(inner.sent.status) else 200,
                                 old(inner.sent.body) + b)
    {
      if statusCode == 0 {
        statusCode := STATUS_OK;
      }
      body := body + b;
      inner.Write(b);
    }
  }
}
