/** The server's write queue: one asynchronous write at a time, in order, and a flag that closes the connection
    when a write completes. Every operation runs on the strand, so each is one atomic step. */
module WriteQueue {
  import opened Pdu

  /** A write handed to asio: the buffer it was given, and whether the socket was open at that moment. */
  datatype Write = Writing(pdu: Bytes, whileOpen: bool)

  /** The handler's write side with the writes outstanding, and whether its session is bound. */
  datatype Writer =
    Writer(queue: seq<Bytes>, inProgress: bool, closeAfter: bool, open: bool, bound: bool, writes: seq<Write>)

  const NEW_WRITER := Writer([], false, false, true, false, [])

  // ---------------------------------------------------------------- operations

  function DoWrite(w: Writer): Writer {
    if w.queue == [] then w.(inProgress := false) else w.(writes := w.writes + [Writing(w.queue[0], w.open)])
  }

  function Enqueue(w: Writer, pdu: Bytes): Writer {
    var w1 := w.(queue := w.queue + [pdu]);
    if w1.inProgress then w1 else DoWrite(w1.(inProgress := true))
  }

  /** Only the socket closes; the flags and the queue stay as they are. */
  function Close(w: Writer): Writer { w.(open := false) }

  function OnWrite(w: Writer, ok: bool): Writer
    requires w.queue != [] && w.writes != []
  {
    var w0 := w.(writes := w.writes[1..]);
    if !ok then Close(w0)
    else
      var w1 := w0.(queue := w.queue[1..]);
      if w1.closeAfter then Close(w1)
      else if w1.queue != [] then DoWrite(w1)
      else w1.(inProgress := false)
  }

  /** An UNBIND: a client that is not bound gets a refusal; for one that is, the flag is set before the response is
      queued, and the session is no longer bound. */
  function Unbind(w: Writer, response: Bytes, refusal: Bytes): Writer {
    if w.bound then Enqueue(w.(closeAfter := true), response).(bound := false) else Enqueue(w, refusal)
  }

  // ---------------------------------------------------------------- runs

  datatype Event =
    | Enqueued(pdu: Bytes)
    | Bound
    | Unbinds(response: Bytes, refusal: Bytes)
    | Completed(ok: bool)
    | ReadError

  datatype History = Begin | Then(before: History, event: Event)

  /** A write started on a closed socket fails; one started before the close may still have succeeded. */
  predicate Enabled(w: Writer, e: Event) {
    e.Completed? ==> w.writes != [] && w.queue != [] && (e.ok ==> w.writes[0].whileOpen)
  }

  predicate Possible(h: History)
    decreases h, 0
  {
    match h
    case Begin => true
    case Then(b, e) => Possible(b) && Enabled(State(b), e)
  }

  function Apply(w: Writer, e: Event): Writer
    requires Enabled(w, e)
  {
    match e
    case Enqueued(pdu) => Enqueue(w, pdu)
    case Bound => w.(bound := true)
    case Unbinds(response, refusal) => Unbind(w, response, refusal)
    case Completed(ok) => OnWrite(w, ok)
    case ReadError => Close(w)
  }

  function State(h: History): Writer
    requires Possible(h)
    decreases h, 1
  {
    match h
    case Begin => NEW_WRITER
    case Then(b, e) => Apply(State(b), e)
  }

  /** Everything ever queued, in order. */
  function Queued(h: History): seq<Bytes>
    requires Possible(h)
  {
    match h
    case Begin => []
    case Then(b, Enqueued(pdu)) => Queued(b) + [pdu]
    case Then(b, Unbinds(response, refusal)) => Queued(b) + [if State(b).bound then response else refusal]
    case Then(b, _) => Queued(b)
  }

  /** The buffers whose write succeeded, in order of completion. */
  function Output(h: History): seq<Bytes>
    requires Possible(h)
  {
    match h
    case Begin => []
    case Then(b, Completed(ok)) => if ok then Output(b) + [State(b).writes[0].pdu] else Output(b)
    case Then(b, _) => Output(b)
  }

  // ---------------------------------------------------------------- the invariant

  /** At most one write is outstanding, and it is the queue front. While the socket is open, a write is outstanding
      exactly when the queue is non-empty, and the flag says so. */
  predicate Orderly(w: Writer) {
    && |w.writes| <= 1
    && (w.writes != [] ==> w.inProgress && w.queue != [] && w.writes[0].pdu == w.queue[0])
    && (w.open ==> (w.inProgress <==> w.queue != []) && (w.writes != [] <==> w.queue != []))
    && (w.open && w.writes != [] ==> w.writes[0].whileOpen)
    && (w.queue != [] ==> w.inProgress)
  }

  lemma ApplyOrderly(w: Writer, e: Event)
    requires Orderly(w) && Enabled(w, e)
    ensures Orderly(Apply(w, e))
  {
  }

  /** How a step changes the queue. */
  lemma ApplyQueue(w: Writer, e: Event)
    requires Enabled(w, e)
    ensures var q := Apply(w, e).queue;
            match e
            case Enqueued(pdu) => q == w.queue + [pdu]
            case Bound => q == w.queue
            case Unbinds(response, refusal) => q == w.queue + [if w.bound then response else refusal]
            case Completed(ok) => if ok then w.queue == [w.queue[0]] + q else q == w.queue
            case ReadError => q == w.queue
  {
  }

  /** In every interleaving: the writer is orderly, and what was written out followed by what is still queued is
      everything ever queued, in order. */
  lemma {:induction false} OutputInOrder(h: History)
    requires Possible(h)
    ensures Orderly(State(h))
    ensures Output(h) + State(h).queue == Queued(h)
  {
    hide Apply;
    if h.Then? {
      OutputInOrder(h.before);
      var w := State(h.before);
      ApplyOrderly(w, h.event);
      ApplyQueue(w, h.event);
      match h.event
      case Completed(ok) =>
        if ok {
          assert Output(h.before) + ([w.queue[0]] + State(h).queue) == Output(h.before) + [w.queue[0]] + State(h).queue;
        }
      case _ =>
    }
  }

  /** The bytes on the wire are the concatenation of a prefix of the PDUs in the order they were queued. */
  lemma OutputIsPrefix(h: History)
    requires Possible(h)
    ensures Output(h) <= Queued(h)
  {
    OutputInOrder(h);
  }

  // ---------------------------------------------------------------- what closes the connection

  /** Whether the client is bound, by its last bind or unbind. */
  predicate IsBound(h: History) {
    match h
    case Begin => false
    case Then(_, Bound) => true
    case Then(_, Unbinds(_, _)) => false
    case Then(b, _) => IsBound(b)
  }

  /** An UNBIND of a bound client has been handled. */
  predicate Unbinding(h: History) {
    h.Then? && (Unbinding(h.before) || (h.event.Unbinds? && IsBound(h.before)))
  }

  /** A read or write failed, or a write completed after such an UNBIND. */
  predicate Closed(h: History) {
    h.Then? && (Closed(h.before) || h.event.ReadError? || (h.event.Completed? && (!h.event.ok || Unbinding(h.before))))
  }

  /** The connection is closed exactly then: a refused UNBIND does not close it. */
  lemma {:induction false} ClosedExactly(h: History)
    requires Possible(h)
    ensures State(h).bound <==> IsBound(h)
    ensures State(h).closeAfter <==> Unbinding(h)
    ensures !State(h).open <==> Closed(h)
  {
    if h.Then? {
      ClosedExactly(h.before);
    }
  }

  // ---------------------------------------------------------------- closing after an UNBIND

  predicate Earlier(a: History, h: History) {
    a == h || (h.Then? && Earlier(a, h.before))
  }

  /** How many successful writes may still come once the flag is set: none on a closed socket with nothing
      outstanding from before, and otherwise the outstanding one. */
  function Chances(w: Writer): nat {
    if w.writes != [] && w.writes[0].whileOpen then 1 else 0
  }

  /** With the flag set and a write outstanding, or the connection finished, no new write is ever started on an open
      socket. */
  predicate Ending(w: Writer) {
    w.closeAfter && w.inProgress && (w.writes != [] || !w.open)
  }

  lemma EndingStep(w: Writer, e: Event)
    requires Orderly(w) && Ending(w) && Enabled(w, e)
    ensures Ending(Apply(w, e))
    ensures Chances(Apply(w, e)) + (if e == Completed(true) then 1 else 0) <= Chances(w)
  {
  }

  lemma {:induction false} EndingWrites(a: History, h: History)
    requires Possible(a) && Possible(h) && Earlier(a, h) && Ending(State(a))
    ensures Ending(State(h)) && |Output(h)| + Chances(State(h)) <= |Output(a)| + Chances(State(a))
  {
    hide Apply;
    hide Enabled;
    hide Ending;
    hide Chances;
    if a != h {
      EndingWrites(a, h.before);
      OutputInOrder(h.before);
      EndingStep(State(h.before), h.event);
    }
  }

  /** The close is meant to complete the UNBIND. The flag acts on whichever write completes next, though, so the
      UNBIND response can still be written out exactly when the connection is open and nothing was queued before it. */
  lemma UnbindResponseExactly(b: History, response: Bytes, refusal: Bytes)
    requires Possible(b) && State(b).bound
    ensures Possible(Then(b, Unbinds(response, refusal)))
    ensures (exists h: History | Possible(h) && Earlier(Then(b, Unbinds(response, refusal)), h) ::
               |Output(h)| > |Queued(b)|)
            <==> State(b).open && State(b).queue == []
  {
    var a := Then(b, Unbinds(response, refusal));
    OutputInOrder(b);
    OutputInOrder(a);
    if State(b).open && State(b).queue == [] {
      var h := Then(a, Completed(true));
      assert Output(b) + [] == Queued(b) && Output(h) == Output(a) + [response];
      assert Possible(h) && Earlier(a, h) && |Output(h)| == |Queued(b)| + 1;
    } else {
      forall h: History | Possible(h) && Earlier(a, h) ensures |Output(h)| <= |Queued(b)| {
        EndingWrites(a, h);
      }
    }
  }

  /** With one PDU already on its way, the response to an UNBIND is never written. */
  lemma UnbindResponseLostExample(h: History)
    requires Possible(h) && Earlier(Then(Then(Then(Begin, Bound), Enqueued([1])), Unbinds([2], [3])), h)
    ensures |Output(h)| <= 1
  {
    UnbindResponseExactly(Then(Then(Begin, Bound), Enqueued([1])), [2], [3]);
  }

  /** And when it is written, the connection closes behind it with nothing else sent. */
  lemma UnbindClosesBehind(b: History, response: Bytes, refusal: Bytes)
    requires Possible(b) && State(b).open && State(b).bound && State(b).queue == []
    ensures var h := Then(Then(b, Unbinds(response, refusal)), Completed(true));
            && Possible(h) && Output(h) == Queued(b) + [response]
            && !State(h).open && !State(h).bound && State(h).writes == []
  {
    OutputInOrder(b);
  }

  // ---------------------------------------------------------------- the object

  class ClientWriter {
    var writeQueue: seq<Bytes>
    var writeInProgress: bool
    var closeAfterWrite: bool
    var socketOpen: bool
    var bound: bool
    var outstanding: seq<Write>

    ghost function Fields(): Writer
      reads this
    {
      Writer(writeQueue, writeInProgress, closeAfterWrite, socketOpen, bound, outstanding)
    }

    constructor ()
      ensures Fields() == NEW_WRITER && Orderly(Fields())
    {
      writeQueue, writeInProgress, closeAfterWrite := [], false, false;
      socketOpen, bound, outstanding := true, false, [];
    }

    method EnqueuePdu(pdu: Bytes)
      modifies this
      ensures Fields() == Enqueue(old(Fields()), pdu)
    {
      writeQueue := writeQueue + [pdu];
      if !writeInProgress {
        writeInProgress := true;
        StartWrite();
      }
    }

    method StartWrite()
      modifies this
      ensures Fields() == DoWrite(old(Fields()))
    {
      if writeQueue == [] {
        writeInProgress := false;
        return;
      }
      outstanding := outstanding + [Writing(writeQueue[0], socketOpen)];
    }

    method WriteCompleted(ok: bool)
      requires writeQueue != [] && outstanding != []
      modifies this
      ensures Fields() == OnWrite(old(Fields()), ok)
    {
      outstanding := outstanding[1..];
      if !ok {
        CloseSocket();
        return;
      }
      writeQueue := writeQueue[1..];
      if closeAfterWrite {
        CloseSocket();
        return;
      }
      if writeQueue != [] {
        StartWrite();
      } else {
        writeInProgress := false;
      }
    }

    method CloseSocket()
      modifies this`socketOpen
      ensures Fields() == Close(old(Fields()))
    {
      socketOpen := false;
    }

    method HandleUnbind(response: Bytes, refusal: Bytes)
      modifies this
      ensures Fields() == Unbind(old(Fields()), response, refusal)
    {
      if !bound {
        EnqueuePdu(refusal);
        return;
      }
      closeAfterWrite := true;
      EnqueuePdu(response);
      bound := false;
    }
  }
}
