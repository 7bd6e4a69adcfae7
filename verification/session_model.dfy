/** The asynchronous query session as a state machine on values: the session's
    queue and state, libpq's send and receive buffers, the server, and a log of
    every callback made.  Runs are arbitrary interleavings of the application,
    the server and the poll loop. */
module SessionModel {

  datatype SessionState = Idle | Queued | Flushed

  /** The free callback of a queue item: none, one that releases the item, or
      insert_query_free, which puts the item back on the queue. */
  datatype FreeCallback = NoCallback | Release | Requeue

  /** One enqueue.  ticket is its serial number and names the query it sends. */
  datatype Entry = Entry(ticket: nat, free: FreeCallback, arg: int)

  /** What PQgetResult returns for a query: results, then NULL. */
  datatype Message = Row(query: nat, value: int) | Null(query: nat)

  datatype Delivery = Delivery(item: nat, msg: Message)

  /** outbuf: queries in libpq's send buffer; server: queries the server has not
      finished; wire: results on their way; inbuf: results libpq has read. */
  datatype Conn = Conn(outbuf: seq<nat>, server: seq<nat>, wire: seq<Message>, inbuf: seq<Message>)

  /** issued: enqueues so far; delivered: result callbacks; freed: items popped,
      which is when the free callback runs; crashed: a callback was given the
      null head of an empty queue. */
  datatype Session = Session(state: SessionState, queue: seq<Entry>, issued: nat, conn: Conn,
                             delivered: seq<Delivery>, freed: seq<nat>, crashed: bool)

  const INIT := Session(Idle, [], 0, Conn([], [], [], []), [], [], false)

  function Enqueue(s: Session, free: FreeCallback, arg: int): Session {
    s.(queue := s.queue + [Entry(s.issued, free, arg)], issued := s.issued + 1)
  }

  /** Unlink the head, then run its free callback. */
  function PopHead(s: Session): Session
    requires s.queue != []
  {
    var head := s.queue[0];
    var popped := s.(queue := s.queue[1..], freed := s.freed + [head.ticket]);
    if head.free.Requeue? then Enqueue(popped, Requeue, head.arg + 1) else popped
  }

  /** One round of the result loop: hand the result to the head of the queue. */
  function Deliver(s: Session): Session
    requires s.conn.inbuf != []
  {
    if s.queue == [] then s.(crashed := true) else
    var m := s.conn.inbuf[0];
    var s1 := s.(conn := s.conn.(inbuf := s.conn.inbuf[1..]),
                 delivered := s.delivered + [Delivery(s.queue[0].ticket, m)]);
    if m.Null? then PopHead(s1).(state := Idle) else s1
  }

  /** The result loop: until libpq would block, or a NULL ends the query. */
  function Drain(s: Session): Session
    decreases |s.conn.inbuf|
  {
    if s.conn.inbuf == [] then s
    else if s.queue == [] || s.conn.inbuf[0].Null? then Deliver(s)
    else Drain(Deliver(s))
  }

  /** PQconsumeInput: n results move from the socket into libpq. */
  function ConsumeInput(s: Session, n: nat): Session {
    var k := if n < |s.conn.wire| then n else |s.conn.wire|;
    s.(conn := s.conn.(wire := s.conn.wire[k..], inbuf := s.conn.inbuf + s.conn.wire[..k]))
  }

  function SendHead(s: Session): Session
    requires s.queue != []
  {
    s.(state := Queued, conn := s.conn.(outbuf := s.conn.outbuf + [s.queue[0].ticket]))
  }

  function Flush(s: Session, allFlushed: bool): Session {
    if allFlushed then
      s.(state := Flushed, conn := s.conn.(outbuf := [], server := s.conn.server + s.conn.outbuf))
    else s
  }

  /** service_session, for a socket from which n results can be read and a flush
      that either completes or would block. */
  function Service(s: Session, n: nat, allFlushed: bool): Session {
    Dispatch(ConsumeInput(s, n), allFlushed)
  }

  function Dispatch(s: Session, allFlushed: bool): Session {
    match s.state
    case Idle => if s.queue == [] then s else Flush(SendHead(s), allFlushed)
    case Queued => Flush(s, allFlushed)
    case Flushed => Drain(s)
  }

  /** The poll loop asks to be woken for a writable socket. */
  predicate WantsWrite(s: Session) {
    s.state == Queued || (s.state == Idle && s.queue != [])
  }

  datatype Event =
    | Push(free: FreeCallback, arg: int)
    | ServerRow(value: int)
    | ServerEnd
    | Serve(readable: nat, allFlushed: bool)

  function Step(s: Session, e: Event): Session {
    match e
    case Push(free, arg) => Enqueue(s, free, arg)
    case ServerRow(v) =>
      if s.conn.server == [] then s
      else s.(conn := s.conn.(wire := s.conn.wire + [Row(s.conn.server[0], v)]))
    case ServerEnd =>
      if s.conn.server == [] then s
      else s.(conn := s.conn.(wire := s.conn.wire + [Null(s.conn.server[0])], server := s.conn.server[1..]))
    case Serve(n, f) => Service(s, n, f)
  }

  function Run(s: Session, events: seq<Event>): Session {
    if events == [] then s else Step(Run(s, events[..|events| - 1]), events[|events| - 1])
  }

  // ------------------------------------------------------------------ invariant

  /** Result streams completed in a callback log. */
  function Nulls(ds: seq<Delivery>): nat {
    if ds == [] then 0
    else Nulls(ds[..|ds| - 1]) + if ds[|ds| - 1].msg.Null? then 1 else 0
  }

  predicate RowsOf(ms: seq<Message>, q: nat) {
    forall i :: 0 <= i < |ms| ==> ms[i].Row? && ms[i].query == q
  }

  function Inbound(s: Session): seq<Message> {
    s.conn.inbuf + s.conn.wire
  }

  /** Exactly the head of the queue is with libpq or the server, and what is still
      to be delivered is the rest of its results. */
  predicate InFlight(s: Session) {
    match s.state
    case Idle => s.conn.outbuf == [] && s.conn.server == [] && Inbound(s) == []
    case Queued =>
      s.queue != [] && s.conn.outbuf == [s.queue[0].ticket] && s.conn.server == [] && Inbound(s) == []
    case Flushed =>
      s.queue != [] && s.conn.outbuf == [] &&
      var q := s.queue[0].ticket;
      if s.conn.server == [] then
        Inbound(s) != [] && RowsOf(Inbound(s)[..|Inbound(s)| - 1], q) && Inbound(s)[|Inbound(s)| - 1] == Null(q)
      else s.conn.server == [q] && RowsOf(Inbound(s), q)
  }

  /** Tickets go through the queue in order and leave it one by one. */
  predicate Conserved(s: Session) {
    && s.issued == |s.freed| + |s.queue|
    && (forall i :: 0 <= i < |s.freed| ==> s.freed[i] == i)
    && (forall i :: 0 <= i < |s.queue| ==> s.queue[i].ticket == |s.freed| + i)
  }

  /** Each result went to the item whose query produced it, and the results
      between the k-th and the next NULL went to the k-th item enqueued. */
  predicate InOrder(ds: seq<Delivery>) {
    forall i :: 0 <= i < |ds| ==> ds[i].item == ds[i].msg.query == Nulls(ds[..i])
  }

  predicate Uncrossed(s: Session) {
    Nulls(s.delivered) == |s.freed| && InOrder(s.delivered)
  }

  predicate Inv(s: Session) {
    !s.crashed && InFlight(s) && Conserved(s) && Uncrossed(s)
  }

  lemma PopKeepsConserved(s: Session)
    requires s.queue != [] && Conserved(s)
    ensures Conserved(PopHead(s))
  {
  }

  lemma RowsComeFirst(ms: seq<Message>, q: nat)
    requires |ms| > 1 && RowsOf(ms[..|ms| - 1], q)
    ensures ms[0].Row? && ms[0].query == q
  {
    assert ms[..|ms| - 1][0] == ms[0];
  }

  lemma DeliverKeepsInFlight(s: Session)
    requires Inv(s) && s.state == Flushed && s.conn.inbuf != []
    ensures InFlight(Deliver(s))
    ensures s.conn.inbuf[0].query == s.queue[0].ticket
  {
    var ms, s' := Inbound(s), Deliver(s);
    assert ms[0] == s.conn.inbuf[0];
    assert Inbound(s') == ms[1..];
    if s.conn.server == [] && |ms| > 1 {
      RowsComeFirst(ms, s.queue[0].ticket);
      assert ms[1..][..|ms| - 2] == ms[..|ms| - 1][1..];
    }
  }

  lemma LogGrows(ds: seq<Delivery>, d: Delivery)
    requires InOrder(ds) && d.item == d.msg.query == Nulls(ds)
    ensures InOrder(ds + [d]) && Nulls(ds + [d]) == Nulls(ds) + if d.msg.Null? then 1 else 0
  {
    var all := ds + [d];
    assert all[..|ds|] == ds;
    forall i | 0 <= i < |all| ensures all[i].item == all[i].msg.query == Nulls(all[..i]) {
      if i < |ds| { assert all[..i] == ds[..i]; }
    }
  }

  lemma DeliverKeepsUncrossed(s: Session)
    requires Inv(s) && s.state == Flushed && s.conn.inbuf != []
    requires s.conn.inbuf[0].query == s.queue[0].ticket
    ensures Uncrossed(Deliver(s))
  {
    var d := Delivery(s.queue[0].ticket, s.conn.inbuf[0]);
    assert Deliver(s).delivered == s.delivered + [d];
    LogGrows(s.delivered, d);
  }

  lemma DeliverKeepsConserved(s: Session)
    requires Conserved(s) && s.queue != [] && s.conn.inbuf != []
    ensures Conserved(Deliver(s)) && Deliver(s).crashed == s.crashed
  {
    if s.conn.inbuf[0].Null? { PopKeepsConserved(s); }
  }

  lemma DeliverKeepsInv(s: Session)
    requires Inv(s) && s.state == Flushed && s.conn.inbuf != []
    ensures Inv(Deliver(s))
  {
    DeliverKeepsInFlight(s);
    DeliverKeepsUncrossed(s);
    DeliverKeepsConserved(s);
  }

  lemma {:induction false} DrainKeepsInv(s: Session)
    requires Inv(s) && s.state == Flushed
    ensures Inv(Drain(s))
    ensures Drain(s).state == Flushed ==> Drain(s).conn.inbuf == []
    ensures Drain(s).state != Queued
    decreases |s.conn.inbuf|
  {
    if s.conn.inbuf != [] {
      DeliverKeepsInv(s);
      if !s.conn.inbuf[0].Null? { DrainKeepsInv(Deliver(s)); }
    }
  }

  lemma ConsumeInputKeepsInv(s: Session, n: nat)
    requires Inv(s)
    ensures Inv(ConsumeInput(s, n)) && Inbound(ConsumeInput(s, n)) == Inbound(s)
    ensures n >= |s.conn.wire| ==> ConsumeInput(s, n).conn.wire == []
  {
    assert Inbound(ConsumeInput(s, n)) == Inbound(s);
  }

  lemma DispatchKeepsInv(s: Session, allFlushed: bool)
    requires Inv(s)
    ensures Inv(Dispatch(s, allFlushed))
    ensures var s' := Dispatch(s, allFlushed);
            s'.state == Flushed ==> s'.conn.inbuf == []
  {
    if s.state == Flushed { DrainKeepsInv(s); }
  }

  lemma ServiceKeepsInv(s: Session, n: nat, allFlushed: bool)
    requires Inv(s)
    ensures Inv(Service(s, n, allFlushed))
    ensures var s' := Service(s, n, allFlushed);
            s'.state == Flushed ==> s'.conn.inbuf == []
  {
    ConsumeInputKeepsInv(s, n);
    DispatchKeepsInv(ConsumeInput(s, n), allFlushed);
  }

  lemma StepKeepsInv(s: Session, e: Event)
    requires Inv(s)
    ensures Inv(Step(s, e))
  {
    match e
    case Push(free, arg) =>
    case Serve(n, f) => ServiceKeepsInv(s, n, f);
    case _ =>
      var s' := Step(s, e);
      if s.conn.server != [] {
        var ms := Inbound(s);
        assert Inbound(s')[..|ms|] == ms;
        assert Inbound(s')[|ms|] == s'.conn.wire[|s.conn.wire|];
      }
  }

  lemma InitKeepsInv()
    ensures Inv(INIT)
  {
  }

  lemma {:induction false} InvLasts(s0: Session, events: seq<Event>)
    requires Inv(s0)
    ensures Inv(Run(s0, events))
    decreases |events|
  {
    if events != [] {
      var before := events[..|events| - 1];
      InvLasts(s0, before);
      StepKeepsInv(Run(s0, before), events[|events| - 1]);
    }
  }

  /** Every run, from a connected session with an empty queue. */
  lemma RunKeepsInv(events: seq<Event>)
    ensures Inv(Run(INIT, events))
  {
    InitKeepsInv();
    InvLasts(INIT, events);
  }

  // ----------------------------------------------------- theorems about all runs

  predicate Concerns(c: Conn, q: nat) {
    && (forall i :: 0 <= i < |c.outbuf| ==> c.outbuf[i] == q)
    && (forall i :: 0 <= i < |c.server| ==> c.server[i] == q)
    && (forall i :: 0 <= i < |c.inbuf| ==> c.inbuf[i].query == q)
    && (forall i :: 0 <= i < |c.wire| ==> c.wire[i].query == q)
  }

  lemma FlushedConcerns(s: Session)
    requires InFlight(s) && s.state == Flushed
    ensures Concerns(s.conn, s.queue[0].ticket)
  {
    var ms, q := Inbound(s), s.queue[0].ticket;
    assert forall i :: 0 <= i < |ms| ==> ms[i].query == q by {
      forall i | 0 <= i < |ms| ensures ms[i].query == q {
        if s.conn.server == [] && i < |ms| - 1 { assert ms[..|ms| - 1][i] == ms[i]; }
      }
    }
    forall i | 0 <= i < |s.conn.inbuf| ensures s.conn.inbuf[i].query == q {
      assert s.conn.inbuf[i] == ms[i];
    }
    forall i | 0 <= i < |s.conn.wire| ensures s.conn.wire[i].query == q {
      assert s.conn.wire[i] == ms[|s.conn.inbuf| + i];
    }
  }

  /** At most one query is anywhere between the queue and its results, and it is
      the head of the queue, which is not empty then. */
  lemma AtMostOneInFlight(events: seq<Event>)
    ensures var s := Run(INIT, events);
            && |s.conn.outbuf| + |s.conn.server| <= 1
            && (if s.state == Idle then s.conn == Conn([], [], [], [])
                else s.queue != [] && Concerns(s.conn, s.queue[0].ticket))
  {
    RunKeepsInv(events);
    var s := Run(INIT, events);
    if s.state == Flushed { FlushedConcerns(s); }
  }

  /** No callback gets a null item; every result reaches the item that sent its
      query; the k-th stream, up to its NULL, reaches the k-th item enqueued. */
  lemma ResultsReachTheirItems(events: seq<Event>)
    ensures var s := Run(INIT, events);
            && !s.crashed
            && forall i :: 0 <= i < |s.delivered| ==>
                 s.delivered[i].item == s.delivered[i].msg.query == Nulls(s.delivered[..i])
  {
    RunKeepsInv(events);
  }

  /** Every enqueue is freed at most once, in order of enqueue, and those not yet
      freed are exactly the ones still queued. */
  lemma EnqueuesAreConserved(events: seq<Event>)
    ensures var s := Run(INIT, events);
            && s.issued == |s.freed| + |s.queue|
            && (forall k :: 0 <= k < |s.freed| ==> s.freed[k] == k)
            && (forall k :: 0 <= k < |s.queue| ==> s.queue[k].ticket == |s.freed| + k)
  {
    RunKeepsInv(events);
  }

  /** Everything the server has said in a run, in order. */
  function Said(events: seq<Event>): seq<Message> {
    if events == [] then [] else
    var before := events[..|events| - 1];
    var s := Run(INIT, before);
    match events[|events| - 1]
    case ServerRow(v) => if s.conn.server == [] then Said(before) else Said(before) + [Row(s.conn.server[0], v)]
    case ServerEnd => if s.conn.server == [] then Said(before) else Said(before) + [Null(s.conn.server[0])]
    case _ => Said(before)
  }

  function Messages(ds: seq<Delivery>): seq<Message> {
    seq(|ds|, i requires 0 <= i < |ds| => ds[i].msg)
  }

  /** What the callbacks have seen, then what is still on its way. */
  function Trail(s: Session): seq<Message> {
    Messages(s.delivered) + Inbound(s)
  }

  lemma DeliverLosesNothing(s: Session)
    requires s.conn.inbuf != [] && s.queue != []
    ensures Trail(Deliver(s)) == Trail(s)
  {
    var s1 := Deliver(s);
    var m := s.conn.inbuf[0];
    assert Messages(s1.delivered) == Messages(s.delivered) + [m];
    assert Inbound(s) == [m] + Inbound(s1);
  }

  lemma {:induction false} DrainLosesNothing(s: Session)
    requires Inv(s) && s.state == Flushed
    ensures Trail(Drain(s)) == Trail(s)
    decreases |s.conn.inbuf|
  {
    if s.conn.inbuf != [] {
      DeliverKeepsInv(s);
      DeliverLosesNothing(s);
      if !s.conn.inbuf[0].Null? { DrainLosesNothing(Deliver(s)); }
    }
  }

  lemma ServiceLosesNothing(s: Session, n: nat, allFlushed: bool)
    requires Inv(s)
    ensures Trail(Service(s, n, allFlushed)) == Trail(s)
  {
    ConsumeInputKeepsInv(s, n);
    var s1 := ConsumeInput(s, n);
    assert Trail(s1) == Trail(s);
    if s1.state == Flushed { DrainLosesNothing(s1); }
  }

  lemma ServerSpeaks(s: Session, m: Message)
    ensures Trail(s.(conn := s.conn.(wire := s.conn.wire + [m]))) == Trail(s) + [m]
  {
    var s' := s.(conn := s.conn.(wire := s.conn.wire + [m]));
    assert Inbound(s') == Inbound(s) + [m];
  }

  /** The callbacks see what the server said, in order: nothing lost, nothing
      twice; what they have not seen is still buffered. */
  lemma {:induction false} NothingLost(events: seq<Event>)
    ensures Trail(Run(INIT, events)) == Said(events)
    decreases |events|
  {
    if events != [] {
      var before := events[..|events| - 1];
      var s := Run(INIT, before);
      NothingLost(before);
      RunKeepsInv(before);
      match events[|events| - 1]
      case Push(_, _) =>
      case Serve(n, f) => ServiceLosesNothing(s, n, f);
      case ServerRow(v) => if s.conn.server != [] { ServerSpeaks(s, Row(s.conn.server[0], v)); }
      case ServerEnd =>
        if s.conn.server != [] {
          ServerSpeaks(s.(conn := s.conn.(server := s.conn.server[1..])), Null(s.conn.server[0]));
        }
    }
  }

  /** When the loop goes to sleep there is nothing to do, or it waits for a
      writable socket, or libpq's buffer is drained and the server still owes the
      end of the current query, which will make the socket readable. */
  lemma PollNeverOversleeps(events: seq<Event>, n: nat, allFlushed: bool)
    ensures var s := Run(INIT, events + [Serve(n, allFlushed)]);
            || (s.state == Idle && s.queue == [])
            || WantsWrite(s)
            || (s.state == Flushed && s.conn.inbuf == [] && (s.conn.server != [] || s.conn.wire != []))
  {
    var all := events + [Serve(n, allFlushed)];
    assert all[..|all| - 1] == events;
    RunKeepsInv(events);
    RunKeepsInv(all);
    ServiceKeepsInv(Run(INIT, events), n, allFlushed);
  }

  lemma {:induction false} DrainEndsQuery(s: Session)
    requires Inv(s) && s.state == Flushed && s.conn.wire == []
    ensures var s' := Drain(s);
            if s.conn.server == [] then |s'.freed| == |s.freed| + 1
            else s' == s.(conn := s.conn.(inbuf := []), delivered := s'.delivered)
    decreases |s.conn.inbuf|
  {
    assert Inbound(s) == s.conn.inbuf;
    if s.conn.inbuf != [] {
      DeliverKeepsInv(s);
      DeliverKeepsInFlight(s);
      if !s.conn.inbuf[0].Null? { DrainEndsQuery(Deliver(s)); }
    }
  }

  // ------------------------------------------------------ what a turn of the loop does

  /** A turn with nothing queued does nothing. */
  lemma NothingToDo(events: seq<Event>, n: nat, allFlushed: bool)
    requires Run(INIT, events).queue == []
    ensures Step(Run(INIT, events), Serve(n, allFlushed)) == Run(INIT, events)
  {
    RunKeepsInv(events);
  }

  /** A query that has not reached the server yet: if the flush would block it stays
      in the send buffer and the session waits for a writable socket; otherwise the
      server has it and the session waits for results.  Nothing else changes. */
  lemma QueryIsSent(events: seq<Event>, n: nat)
    requires Run(INIT, events).queue != [] && Run(INIT, events).state != Flushed
    ensures var s := Run(INIT, events);
            var t := s.queue[0].ticket;
            && Step(s, Serve(n, false)) == s.(state := Queued, conn := Conn([t], [], [], []))
            && Step(s, Serve(n, true)) == s.(state := Flushed, conn := Conn([], [t], [], []))
  {
    RunKeepsInv(events);
    var s := Run(INIT, events);
    assert s.conn.inbuf == [] && s.conn.wire == [] by { assert Inbound(s) == []; }
    assert ConsumeInput(s, n).conn == s.conn;
  }

  /** The log entries of a stretch of results, all for one item. */
  function For(item: nat, ms: seq<Message>): seq<Delivery> {
    seq(|ms|, i requires 0 <= i < |ms| => Delivery(item, ms[i]))
  }

  /** s' is s after the head of its queue has been given all of ms: the query ends
      if and only if the last of them is a NULL. */
  predicate HasRead(s: Session, ms: seq<Message>, s': Session)
    requires s.queue != []
  {
    && s'.delivered == s.delivered + For(s.queue[0].ticket, ms)
    && s'.conn == s.conn.(inbuf := []) && !s'.crashed
    && if ms != [] && ms[|ms| - 1].Null? then
         && s'.state == Idle && s'.freed == s.freed + [s.queue[0].ticket]
         && (if s.queue[0].free.Requeue? then
               && s'.queue == s.queue[1..] + [Entry(s.issued, Requeue, s.queue[0].arg + 1)]
               && s'.issued == s.issued + 1
             else s'.queue == s.queue[1..] && s'.issued == s.issued)
       else s'.state == Flushed && s'.freed == s.freed && s'.queue == s.queue && s'.issued == s.issued
  }

  lemma NullComesLast(s: Session)
    requires Inv(s) && s.state == Flushed && s.conn.inbuf != [] && s.conn.inbuf[0].Null?
    ensures s.conn.inbuf == [s.conn.inbuf[0]] && s.conn.wire == []
  {
    var ms := Inbound(s);
    assert ms[0] == s.conn.inbuf[0];
    if |ms| > 1 && s.conn.server == [] { RowsComeFirst(ms, s.queue[0].ticket); }
  }

  lemma {:induction false} DrainReads(s: Session)
    requires Inv(s) && s.state == Flushed
    ensures HasRead(s, s.conn.inbuf, Drain(s))
    decreases |s.conn.inbuf|
  {
    var ms, q := s.conn.inbuf, s.queue[0].ticket;
    if ms == [] {
    } else if ms[0].Null? {
      NullComesLast(s);
      assert For(q, ms) == [Delivery(q, ms[0])];
    } else {
      DeliverKeepsInv(s);
      DrainReads(Deliver(s));
      RowThenRest(s, Drain(s));
    }
  }

  lemma RowThenRest(s: Session, s': Session)
    requires s.queue != [] && s.conn.inbuf != [] && s.conn.inbuf[0].Row?
    requires HasRead(Deliver(s), s.conn.inbuf[1..], s')
    ensures HasRead(s, s.conn.inbuf, s')
  {
    var ms, q := s.conn.inbuf, s.queue[0].ticket;
    assert For(q, ms) == [Delivery(q, ms[0])] + For(q, ms[1..]);
    assert |ms| > 1 ==> ms[1..][|ms| - 2] == ms[|ms| - 1];
  }

  /** A query at the server: the turn reads min(n, what has arrived) from the socket
      and hands exactly that, after what was buffered, to the head of the queue. */
  lemma ResultsAreRead(events: seq<Event>, n: nat, allFlushed: bool)
    requires Run(INIT, events).state == Flushed
    ensures var s := Run(INIT, events);
            var k := if n < |s.conn.wire| then n else |s.conn.wire|;
            && s.queue != []
            && HasRead(s.(conn := s.conn.(wire := s.conn.wire[k..])), s.conn.inbuf + s.conn.wire[..k],
                       Step(s, Serve(n, allFlushed)))
  {
    RunKeepsInv(events);
    var s := Run(INIT, events);
    ConsumeInputKeepsInv(s, n);
    DrainReads(ConsumeInput(s, n));
  }

  /** The loop asks to be woken for a writable socket exactly while there is a query
      that the server has not been sent. */
  lemma WantsWriteExactly(events: seq<Event>)
    ensures var s := Run(INIT, events);
            WantsWrite(s) <==> s.queue != [] && s.conn.server == [] && s.conn.wire + s.conn.inbuf == []
  {
    RunKeepsInv(events);
    var s := Run(INIT, events);
    assert Inbound(s) == [] <==> s.conn.wire + s.conn.inbuf == [];
  }

  /** One turn with a writable socket that reads all there is: a query whose
      end has arrived is finished, any other one waits at the server. */
  lemma OneTurn(s: Session, n: nat)
    requires Inv(s) && s.queue != [] && n >= |s.conn.wire|
    ensures var s' := Service(s, n, true);
            if s.state == Flushed && s.conn.server == [] then |s'.freed| == |s.freed| + 1
            else s'.state == Flushed && s'.conn.server == [s.queue[0].ticket]
                 && Inbound(s') == [] && s'.freed == s.freed
  {
    ConsumeInputKeepsInv(s, n);
    var s1 := ConsumeInput(s, n);
    if s1.state == Flushed { DrainEndsQuery(s1); }
  }

  /** Progress: in any reachable state with work queued, two turns of the loop
      with a writable socket, and an answer from the server between them, finish
      the head of the queue. */
  lemma HeadCompletes(events: seq<Event>)
    requires Run(INIT, events).queue != []
    ensures var s := Run(INIT, events);
            var turn := Serve(|s.conn.wire| + 1, true);
            |Step(Step(Step(s, turn), ServerEnd), turn).freed| > |s.freed|
  {
    var s := Run(INIT, events);
    var n := |s.conn.wire| + 1;
    RunKeepsInv(events);
    OneTurn(s, n);
    var s1 := Service(s, n, true);
    StepKeepsInv(s, Serve(n, true));
    var s2 := Step(s1, ServerEnd);
    StepKeepsInv(s1, ServerEnd);
    if s2.queue != [] {
      assert |s2.conn.wire| <= n by { TurnReadsAll(s, n); }
      OneTurn(s2, n);
    }
  }

  lemma TurnReadsAll(s: Session, n: nat)
    requires Inv(s) && n >= |s.conn.wire|
    ensures Service(s, n, true).conn.wire == []
  {
    ConsumeInputKeepsInv(s, n);
    if s.state == Flushed { DrainLeavesWire(ConsumeInput(s, n)); }
  }

  lemma {:induction false} DrainLeavesWire(s: Session)
    ensures Drain(s).conn.wire == s.conn.wire
    decreases |s.conn.inbuf|
  {
    if s.conn.inbuf != [] && s.queue != [] && !s.conn.inbuf[0].Null? { DrainLeavesWire(Deliver(s)); }
  }

  // ------------------------------------------------------------ emptying the queue

  predicate NoRequeue(q: seq<Entry>) {
    forall i :: 0 <= i < |q| ==> !q[i].free.Requeue?
  }

  /** kill_sessions on one session, stopped after n pops. */
  function Kill(s: Session, n: nat): Session
    decreases n
  {
    if n == 0 || s.queue == [] then s else Kill(PopHead(s), n - 1)
  }

  function Tickets(q: seq<Entry>): seq<nat> {
    seq(|q|, i requires 0 <= i < |q| => q[i].ticket)
  }

  lemma {:induction false} KillFreesAll(s: Session)
    requires NoRequeue(s.queue)
    ensures Kill(s, |s.queue|) == s.(queue := [], freed := s.freed + Tickets(s.queue))
    decreases |s.queue|
  {
    if s.queue != [] {
      KillFreesAll(PopHead(s));
      assert Tickets(s.queue) == [s.queue[0].ticket] + Tickets(s.queue[1..]);
    }
  }

  /** One round of kill_sessions. */
  lemma KillNext(s: Session)
    requires NoRequeue(s.queue) && s.queue != []
    ensures NoRequeue(PopHead(s).queue) && |PopHead(s).queue| == |s.queue| - 1
    ensures Kill(s, |s.queue|) == Kill(PopHead(s), |PopHead(s).queue|)
  {
  }

  lemma {:induction false} RequeueSurvives(s: Session, n: nat)
    requires !NoRequeue(s.queue)
    ensures !NoRequeue(Kill(s, n).queue)
    decreases n
  {
    if n > 0 {
      var s' := PopHead(s);
      var i :| 0 <= i < |s.queue| && s.queue[i].free.Requeue?;
      if i == 0 {
        assert s'.queue[|s'.queue| - 1].free.Requeue?;
      } else {
        assert s'.queue[i - 1].free.Requeue?;
      }
      RequeueSurvives(s', n - 1);
    }
  }

  /** kill_sessions empties a queue if and only if no item on it re-enqueues
      itself when freed. */
  lemma KillTerminatesExactly(s: Session)
    ensures (exists n: nat :: Kill(s, n).queue == []) <==> NoRequeue(s.queue)
  {
    if NoRequeue(s.queue) {
      KillFreesAll(s);
      assert Kill(s, |s.queue|).queue == [];
    } else {
      forall n: nat ensures Kill(s, n).queue != [] {
        RequeueSurvives(s, n);
      }
    }
  }

  // ------------------------------------------------ a result loop that does not stop

  /** One more round of the result loop after a NULL.  The connection is idle, so it
      is not busy and yields NULL again: the next item in the queue gets a NULL for
      a query never sent and is popped, and an empty queue yields a null item. */
  function RoundPastNull(s: Session): Session {
    if s.queue == [] then s.(crashed := true)
    else PopHead(s.(delivered := s.delivered + [Delivery(s.queue[0].ticket, Null(s.queue[0].ticket))]))
  }

  function RoundsPastNull(s: Session, n: nat): Session
    decreases n
  {
    if n == 0 then s else RoundsPastNull(RoundPastNull(s), n - 1)
  }

  lemma {:induction false} RoundsCrash(s: Session)
    requires NoRequeue(s.queue)
    ensures RoundsPastNull(s, |s.queue| + 1).crashed
    decreases |s.queue|
  {
    if s.queue == [] {
      assert RoundsPastNull(RoundPastNull(s), 0).crashed;
    } else {
      RoundsCrash(RoundPastNull(s));
    }
  }

  lemma {:induction false} RoundsGoOn(s: Session, n: nat)
    requires !NoRequeue(s.queue) && !s.crashed
    ensures !RoundsPastNull(s, n).crashed
    decreases n
  {
    if n > 0 {
      var s' := RoundPastNull(s);
      var i :| 0 <= i < |s.queue| && s.queue[i].free.Requeue?;
      assert s'.queue[if i == 0 then |s'.queue| - 1 else i - 1].free.Requeue?;
      RoundsGoOn(s', n - 1);
    }
  }

  /** The loop's own text does not leave it at a NULL result, only its comment does.
      Taken literally it never ends well: it calls back with a null item exactly
      when no queued item re-enqueues itself, and otherwise runs for ever. */
  lemma LoopMustStopAtNull(s: Session)
    requires !s.crashed
    ensures (exists n: nat :: RoundsPastNull(s, n).crashed) <==> NoRequeue(s.queue)
  {
    if NoRequeue(s.queue) {
      RoundsCrash(s);
    } else {
      forall n: nat ensures !RoundsPastNull(s, n).crashed {
        RoundsGoOn(s, n);
      }
    }
  }

  // ------------------------------------------------------- the program's own queue

  /** Popping the head leaves the linked list well formed: an item that puts
      itself back is alone on the queue when popped. */
  predicate SafeToPop(s: Session) {
    s.queue != [] && s.queue[0].free.Requeue? ==> |s.queue| == 1
  }

  /** The event leaves the linked list well formed: it pops nothing, or safely. */
  predicate SafeStep(s: Session, e: Event) {
    |Step(s, e).freed| == |s.freed| || e.Push? || SafeToPop(s)
  }

  predicate SafeRun(s0: Session, events: seq<Event>) {
    events == [] ||
    var before := events[..|events| - 1];
    SafeRun(s0, before) && SafeStep(Run(s0, before), events[|events| - 1])
  }

  lemma {:induction false} SafePrefix(s0: Session, events: seq<Event>, n: nat)
    requires SafeRun(s0, events) && n <= |events|
    ensures SafeRun(s0, events[..n])
    decreases |events|
  {
    if n == |events| {
      assert events[..n] == events;
    } else {
      SafePrefix(s0, events[..|events| - 1], n);
      assert events[..|events| - 1][..n] == events[..n];
    }
  }

  predicate RequeueOnlyLast(q: seq<Entry>) {
    forall i :: 0 <= i < |q| - 1 ==> !q[i].free.Requeue?
  }

  lemma {:induction false} DrainKeepsRequeueLast(s: Session)
    requires RequeueOnlyLast(s.queue)
    ensures RequeueOnlyLast(Drain(s).queue)
    decreases |s.conn.inbuf|
  {
    if s.conn.inbuf != [] && s.queue != [] && !s.conn.inbuf[0].Null? {
      DrainKeepsRequeueLast(Deliver(s));
    }
  }

  lemma StepKeepsRequeueLast(s: Session, e: Event)
    requires RequeueOnlyLast(s.queue) && !e.Push?
    ensures RequeueOnlyLast(Step(s, e).queue)
  {
    if e.Serve? { DrainKeepsRequeueLast(ConsumeInput(s, e.readable)); }
  }

  /** One event further in a run that is safe but for its last event. */
  lemma SafeSoFar(s0: Session, events: seq<Event>, i: nat)
    requires i < |events| && SafeRun(s0, events[..|events| - 1])
    ensures SafeRun(s0, events[..i])
    ensures Run(s0, events[..i + 1]) == Step(Run(s0, events[..i]), events[i])
    ensures SafeRun(s0, events[..i + 1]) <==> SafeStep(Run(s0, events[..i]), events[i])
  {
    SafePrefix(s0, events[..|events| - 1], i);
    assert events[..|events| - 1][..i] == events[..i];
    RunNext(s0, events, i);
  }

  /** If the only item that puts itself back is the last one queued, and nothing
      else is pushed afterwards, every pop of the whole run is safe. */
  lemma {:induction false} RequeueLastIsSafe(s0: Session, events: seq<Event>)
    requires RequeueOnlyLast(s0.queue)
    requires forall i :: 0 <= i < |events| ==> !events[i].Push?
    ensures RequeueOnlyLast(Run(s0, events).queue) && SafeToPop(Run(s0, events))
    ensures SafeRun(s0, events)
    decreases |events|
  {
    if events != [] {
      var before := events[..|events| - 1];
      RequeueLastIsSafe(s0, before);
      StepKeepsRequeueLast(Run(s0, before), events[|events| - 1]);
    }
  }

  /** main: two setup commands, then the insert item that re-enqueues itself. */
  function MainQueue(): Session {
    Enqueue(Enqueue(Enqueue(INIT, Release, 0), Release, 0), Requeue, 1)
  }

  lemma MainIsSafe(events: seq<Event>)
    requires forall i :: 0 <= i < |events| ==> !events[i].Push?
    ensures SafeRun(MainQueue(), events)
  {
    RequeueLastIsSafe(MainQueue(), events);
  }

  /** The queue of the program after f of its items have been freed. */
  function MainQueueAfter(f: nat): seq<Entry> {
    if f == 0 then [Entry(0, Release, 0), Entry(1, Release, 0), Entry(2, Requeue, 1)]
    else if f == 1 then [Entry(1, Release, 0), Entry(2, Requeue, 1)]
    else [Entry(f, Requeue, f - 1)]
  }

  predicate CountsUp(s: Session) {
    s.queue == MainQueueAfter(|s.freed|) && s.issued == |s.freed| + |s.queue|
  }

  lemma {:induction false} DrainCountsUp(s: Session)
    requires CountsUp(s)
    ensures CountsUp(Drain(s))
    decreases |s.conn.inbuf|
  {
    if s.conn.inbuf != [] {
      DeliverCountsUp(s);
      if !s.conn.inbuf[0].Null? { DrainCountsUp(Deliver(s)); }
    }
  }

  lemma DeliverCountsUp(s: Session)
    requires CountsUp(s) && s.conn.inbuf != []
    ensures CountsUp(Deliver(s))
  {
  }

  lemma StepCountsUp(s: Session, e: Event)
    requires CountsUp(s) && !e.Push?
    ensures CountsUp(Step(s, e))
  {
    if e.Serve? { DrainCountsUp(ConsumeInput(s, e.readable)); }
  }

  /** In every run of the program the two setup commands go first, and from then on
      the queue holds one insert, whose value is one more than the number of inserts
      completed. */
  lemma {:induction false} MainCountsUp(events: seq<Event>)
    requires forall i :: 0 <= i < |events| ==> !events[i].Push?
    ensures var s := Run(MainQueue(), events);
            s.queue == MainQueueAfter(|s.freed|) && s.issued == |s.freed| + |s.queue|
    decreases |events|
  {
    if events != [] {
      MainCountsUp(events[..|events| - 1]);
      StepCountsUp(Run(MainQueue(), events[..|events| - 1]), events[|events| - 1]);
    }
  }

  /** An item that re-enqueues itself, another one behind it, and one query served
      to its end. */
  const RING_RUN := [Push(Requeue, 0), Push(Release, 0), Serve(0, true), ServerEnd, Serve(1, true)]

  /** The condition can fail: the events above, on a fresh session, are safe up to
      the last one and unsafe there. */
  lemma RingRunIsUnsafe()
    ensures !SafeToPop(Run(INIT, RING_RUN[..2]))
    ensures SafeRun(INIT, RING_RUN[..4]) && !SafeRun(INIT, RING_RUN)
  {
    var s1 := Enqueue(INIT, Requeue, 0);
    var s2 := Enqueue(s1, Release, 0);
    var s3 := s2.(state := Flushed, conn := Conn([], [0], [], []));
    var s4 := s3.(conn := Conn([], [], [Null(0)], []));
    RunNext(INIT, RING_RUN, 0);
    RunNext(INIT, RING_RUN, 1);
    RunNext(INIT, RING_RUN, 2);
    RunNext(INIT, RING_RUN, 3);
    RunNext(INIT, RING_RUN, 4);
    assert Step(INIT, RING_RUN[0]) == s1 && Step(s1, RING_RUN[1]) == s2;
    assert Service(s2, 0, true) == s3;
    assert Step(s3, ServerEnd) == s4;
    assert ConsumeInput(s4, 1).conn == Conn([], [], [], [Null(0)]);
    assert Step(s4, RING_RUN[4]).freed == [0];
    assert RING_RUN[..5] == RING_RUN;
  }

  /** A run, and its safety, one event further. */
  lemma RunNext(s0: Session, events: seq<Event>, n: nat)
    requires n < |events|
    ensures Run(s0, events[..n + 1]) == Step(Run(s0, events[..n]), events[n])
    ensures SafeRun(s0, events[..n + 1]) <==> SafeRun(s0, events[..n]) && SafeStep(Run(s0, events[..n]), events[n])
  {
    assert events[..n + 1][..n] == events[..n];
  }
}
