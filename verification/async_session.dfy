/** The session engine on the heap: the intrusive singly linked queue with its
    head and tail pointers, updated in place, and the functions that service a
    session.  Each method is tied to the state machine of SessionModel. */
module AsyncSession {
  import opened SessionModel

  class QueueItem {
    var next: QueueItem?
    var free: FreeCallback
    var arg: int
    var ticket: nat

    constructor ()
      ensures next == null
    {
      next, free, arg, ticket := null, NoCallback, 0, 0;
    }
  }

  ghost function EntryOf(item: QueueItem): Entry
    reads item
  {
    Entry(item.ticket, item.free, item.arg)
  }

  ghost function Entries(items: seq<QueueItem>): (r: seq<Entry>)
    reads items
  {
    seq(|items|, i requires 0 <= i < |items| reads items => EntryOf(items[i]))
  }

  class AppSession {
    var state: SessionState
    var head: QueueItem?
    var tail: QueueItem?
    var issued: nat
    var conn: Conn
    var delivered: seq<Delivery>
    var freed: seq<nat>
    ghost var items: seq<QueueItem>

    /** head and tail delimit a chain of distinct items; nothing is said of the
        last item's next pointer. */
    ghost predicate Chain()
      reads this, items
    {
      && (head == null <==> items == [])
      && (tail == null <==> items == [])
      && (items != [] ==> head == items[0] && tail == items[|items| - 1])
      && (forall i :: 0 <= i < |items| - 1 ==> items[i].next == items[i + 1])
      && (forall i, j :: 0 <= i < j < |items| ==> items[i] != items[j])
    }

    /** The list ends where the code expects it to. */
    ghost predicate Terminated()
      reads this, items
    {
      items != [] ==> items[|items| - 1].next == null
    }

    /** Its end has been tied to its beginning. */
    ghost predicate Ring()
      reads this, items
    {
      Chain() && items != [] && items[|items| - 1].next == head
    }

    ghost predicate WellFormed()
      reads this, items
    {
      Chain() && Terminated()
    }

    ghost function Abs(): Session
      reads this, items
    {
      Session(state, Entries(items), issued, conn, delivered, freed, false)
    }

    constructor ()
      ensures WellFormed() && Abs() == INIT
    {
      state, head, tail, issued := Idle, null, null, 0;
      conn, delivered, freed, items := Conn([], [], [], []), [], [], [];
    }

    /** The asserts are the source's.  Nothing here clears item.next, so the list
        stays terminated exactly when the item arrives detached. */
    method PushQueryQueueItem(item: QueueItem, free: FreeCallback, arg: int)
      requires WellFormed() && item !in items
      modifies this, item, items
      ensures items == old(items) + [item]
      ensures item.free == free && item.arg == arg && item.ticket == old(issued) && issued == old(issued) + 1
      ensures Chain() && tail == item && item.next == old(item.next)
      ensures WellFormed() <==> old(item.next) == null
      ensures Abs() == Enqueue(old(Abs()), free, arg)
    {
      item.free, item.arg, item.ticket := free, arg, issued;
      issued := issued + 1;
      if head == null {
        assert tail == null;
        head := item;
      } else {
        assert tail != null;
        assert tail.next == null;
        tail.next := item;
      }
      tail := item;
      items := items + [item];
      assert Abs().queue == old(Abs()).queue + [Entry(old(issued), free, arg)];
    }

    /** insert_query_free: the item, already unlinked, goes to the back. */
    method InsertQueryFree(item: QueueItem)
      requires WellFormed() && item !in items
      modifies this, item, items
      ensures items == old(items) + [item]
      ensures Chain() && tail == item && item.next == old(item.next)
      ensures item.free == Requeue && item.arg == old(item.arg) + 1
      ensures freed == old(freed)
      ensures Abs() == Enqueue(old(Abs()), Requeue, old(item.arg) + 1)
    {
      assert head != item;
      assert tail != item;
      PushQueryQueueItem(item, Requeue, item.arg + 1);
    }

    /** The head leaves the list; its own next pointer is left as it was. */
    method UnlinkHead() returns (oldHead: QueueItem)
      requires WellFormed() && items != []
      modifies this`head, this`tail, this`items, this`freed
      ensures WellFormed() && items == old(items)[1..]
      ensures oldHead == old(items)[0] && oldHead !in items && oldHead.next == head
      ensures Abs() == old(Abs()).(queue := old(Abs()).queue[1..], freed := old(freed) + [oldHead.ticket])
    {
      oldHead := head;
      assert |items| > 1 ==> items[0].next == items[1];
      freed := freed + [oldHead.ticket];
      head := oldHead.next;
      if head == null {
        tail := null;
      }
      items := items[1..];
      assert Entries(items) == old(Entries(items))[1..];
    }

    /** Unlinking does not clear the item's next pointer.  The list is well formed
        afterwards if and only if the popped item does not put itself back or was
        alone; otherwise its stale pointer closes the list into a ring. */
    method PopQueryQueueItem()
      requires WellFormed() && items != []
      modifies this, items
      ensures Chain() && Abs() == PopHead(old(Abs()))
      ensures freed == old(freed) + [old(items[0].ticket)]
      ensures old(items[0].free).Requeue? ==>
                tail == old(items)[0] && tail.free == Requeue && tail.arg == old(items[0].arg) + 1
      ensures items == if old(items[0].free).Requeue? then old(items)[1..] + [old(items)[0]] else old(items)[1..]
      ensures WellFormed() <==> SafeToPop(old(Abs()))
      ensures WellFormed() || Ring()
    {
      var oldHead := UnlinkHead();
      if oldHead.free.Requeue? {
        InsertQueryFree(oldHead);
      }
    }

    method ConsumeInputFrom(n: nat)
      modifies this`conn
      ensures Abs() == ConsumeInput(old(Abs()), n)
    {
      var k := if n < |conn.wire| then n else |conn.wire|;
      conn := conn.(wire := conn.wire[k..], inbuf := conn.inbuf + conn.wire[..k]);
    }

    /** PQgetResult, and the result callback of the queue head. */
    method CallBack() returns (msg: Message)
      requires WellFormed() && items != [] && conn.inbuf != []
      modifies this`conn, this`delivered
      ensures msg == old(conn.inbuf)[0]
      ensures Abs() == old(Abs()).(conn := old(conn).(inbuf := old(conn.inbuf)[1..]),
                                   delivered := old(delivered) + [Delivery(EntryOf(items[0]).ticket, msg)])
    {
      msg := conn.inbuf[0];
      conn := conn.(inbuf := conn.inbuf[1..]);
      delivered := delivered + [Delivery(head.ticket, msg)];
    }

    /** One result: the callback of the queue head gets it, and a NULL pops the
        head and leaves the session idle. */
    method DeliverResult() returns (msg: Message)
      requires WellFormed() && items != [] && conn.inbuf != []
      modifies this, items
      ensures msg == old(conn.inbuf)[0]
      ensures Chain() && Abs() == Deliver(old(Abs()))
      ensures msg.Row? ==> WellFormed() && items == old(items)
      ensures msg.Null? ==> (WellFormed() <==> SafeToPop(old(Abs()))) && (WellFormed() || Ring())
      ensures forall i :: 0 <= i < |items| ==> items[i] in old(items)
    {
      msg := CallBack();
      if msg.Null? {
        PopQueryQueueItem();
        state := Idle;
      }
    }

    /** The result loop of SESSION_FLUSHED, ended by a NULL result. */
    method DrainResults()
      requires WellFormed() && Inv(Abs()) && state == Flushed
      modifies this, items
      ensures Chain() && Abs() == Drain(old(Abs()))
      ensures WellFormed() <==> (|freed| == |old(freed)| || SafeToPop(old(Abs())))
      ensures WellFormed() || Ring()
      ensures forall i :: 0 <= i < |items| ==> items[i] in old(items)
    {
      ghost var goal := Drain(Abs());
      while conn.inbuf != []
        invariant WellFormed() && Inv(Abs()) && state == Flushed
        invariant items == old(items) && Abs().queue == old(Abs()).queue
        invariant freed == old(freed)
        invariant Drain(Abs()) == goal
        decreases |conn.inbuf|
      {
        DeliverKeepsInv(Abs());
        var msg := DeliverResult();
        if msg.Null? {
          return;
        }
      }
    }

    /** One turn of the poll loop.  n is what can be read from the socket,
        allFlushed what the flush reports. */
    method ServiceSession(n: nat, allFlushed: bool)
      requires WellFormed() && Inv(Abs())
      modifies this, items
      ensures Chain() && Inv(Abs())
      ensures Abs() == Service(old(Abs()), n, allFlushed)
      ensures old(state) != Flushed && old(items) != [] ==>
                && items == old(items) && freed == old(freed) && delivered == old(delivered)
                && (if allFlushed then state == Flushed && conn == Conn([], [items[0].ticket], [], [])
                    else state == Queued && conn == Conn([items[0].ticket], [], [], []))
      ensures WellFormed() <==> (|freed| == |old(freed)| || SafeToPop(old(Abs())))
      ensures WellFormed() || Ring()
      ensures forall i :: 0 <= i < |items| ==> items[i] in old(items)
    {
      ConsumeInputKeepsInv(Abs(), n);
      ConsumeInputFrom(n);
      DispatchState(allFlushed);
    }

    /** The switch on the session's state. */
    method DispatchState(allFlushed: bool)
      requires WellFormed() && Inv(Abs())
      modifies this, items
      ensures Chain() && Inv(Abs())
      ensures Abs() == Dispatch(old(Abs()), allFlushed)
      ensures old(state) != Flushed && old(items) != [] ==>
                && items == old(items) && freed == old(freed) && delivered == old(delivered)
                && (if allFlushed then state == Flushed && conn == Conn([], [items[0].ticket], [], [])
                    else state == Queued && conn == Conn([items[0].ticket], [], [], []))
      ensures WellFormed() <==> (|freed| == |old(freed)| || SafeToPop(old(Abs())))
      ensures WellFormed() || Ring()
      ensures forall i :: 0 <= i < |items| ==> items[i] in old(items)
    {
      DispatchKeepsInv(Abs(), allFlushed);
      match state {
        case Idle =>
          if head != null {
            conn := conn.(outbuf := conn.outbuf + [head.ticket]);
            state := Queued;
            FlushQuery(allFlushed);
          }
        case Queued =>
          FlushQuery(allFlushed);
        case Flushed =>
          DrainResults();
      }
    }

    method FlushQuery(allFlushed: bool)
      modifies this`conn, this`state
      ensures Abs() == Flush(old(Abs()), allFlushed)
      ensures !allFlushed ==> state == old(state) && conn == old(conn)
      ensures allFlushed ==>
                state == Flushed && conn == old(conn).(outbuf := [], server := old(conn.server + conn.outbuf))
    {
      if allFlushed {
        conn := conn.(server := conn.server + conn.outbuf, outbuf := []);
        state := Flushed;
      }
    }

    /** The inner loop of kill_sessions. */
    method KillQueue()
      requires WellFormed() && NoRequeue(Abs().queue)
      modifies this, items
      ensures WellFormed() && head == null
      ensures Abs() == Killed(old(Abs()))
    {
      ghost var s := Abs();
      KillFreesAll(s);
      while head != null
        invariant WellFormed() && NoRequeue(Abs().queue)
        invariant forall j :: 0 <= j < |items| ==> items[j] in old(items)
        invariant Kill(Abs(), |items|) == Kill(s, |s.queue|)
        decreases |items|
      {
        KillNext(Abs());
        PopQueryQueueItem();
      }
      assert Abs().queue == [];
    }

    /** The server answers the query it has, if any. */
    method ServerSpeaks(e: Event)
      requires e.ServerRow? || e.ServerEnd?
      modifies this`conn
      ensures Abs() == Step(old(Abs()), e)
    {
      if conn.server != [] {
        if e.ServerRow? {
          conn := conn.(wire := conn.wire + [Row(conn.server[0], e.value)]);
        } else {
          conn := conn.(wire := conn.wire + [Null(conn.server[0])], server := conn.server[1..]);
        }
      }
    }

    /** One event: the application pushes a new item, the server speaks, or the poll
        loop takes a turn.  The list survives it if and only if it is safe, and
        otherwise ends in a ring. */
    method HandleEvent(e: Event)
      requires WellFormed() && Inv(Abs())
      modifies this, items
      ensures Chain() && Inv(Abs()) && Abs() == Step(old(Abs()), e)
      ensures WellFormed() <==> SafeStep(old(Abs()), e)
      ensures WellFormed() || Ring()
      ensures forall i :: 0 <= i < |items| ==> items[i] in old(items) || fresh(items[i])
    {
      StepKeepsInv(Abs(), e);
      match e {
        case Push(free, arg) =>
          var item := new QueueItem();
          PushQueryQueueItem(item, free, arg);
        case Serve(n, f) => ServiceSession(n, f);
        case _ => ServerSpeaks(e);
      }
    }

    /** sample_mainloop for one session over any finite stretch of pushes, server
        activity and poll wake-ups: the heap does what the state machine does, and
        the list is well formed at the end if and only if every pop on the way was
        safe.  Only the last event may be unsafe; what would follow is not modelled. */
    method MainLoop(events: seq<Event>)
      requires WellFormed() && Inv(Abs())
      requires events != [] ==> SafeRun(Abs(), events[..|events| - 1])
      modifies this, items
      ensures Chain() && Inv(Abs())
      ensures Abs() == Run(old(Abs()), events)
      ensures WellFormed() <==> SafeRun(old(Abs()), events)
      ensures WellFormed() || Ring()
    {
      ghost var s0 := Abs();
      for i := 0 to |events|
        invariant WellFormed() || Ring()
        invariant forall j :: 0 <= j < |items| ==> items[j] in old(items) || fresh(items[j])
        invariant Abs() == Run(s0, events[..i])
        invariant WellFormed() <==> SafeRun(s0, events[..i])
      {
        SafeSoFar(s0, events, i);
        InvLasts(s0, events[..i]);
        HandleEvent(events[i]);
      }
      assert events[..|events|] == events;
      InvLasts(s0, events);
    }
  }

  /** RING_RUN on the heap: the list is a ring, and the assertion tail.next == null
      of the next push no longer holds. */
  method NextPushFails() returns (session: AppSession)
    ensures session.Ring() && session.tail != null && session.tail.next != null
  {
    session := new AppSession();
    InitKeepsInv();
    RingRunIsUnsafe();
    session.MainLoop(RING_RUN);
  }

  ghost predicate Disjoint(sessions: seq<AppSession>)
    reads sessions
  {
    forall i, j :: 0 <= i < |sessions| && 0 <= j < |sessions| && i != j ==>
      sessions[i] != sessions[j] && forall x :: x in sessions[i].items ==> x !in sessions[j].items
  }

  /** kill_sessions: from the last session to the first, every queue is emptied
      and every item freed once, in queue order. */
  method KillSessions(sessions: seq<AppSession>)
    requires Disjoint(sessions)
    requires forall s :: s in sessions ==> s.WellFormed() && NoRequeue(s.Abs().queue)
    modifies sessions, set s, x | s in sessions && x in s.items :: x
    ensures forall s :: s in sessions ==> s.WellFormed() && s.head == null
    ensures forall s :: s in sessions ==> s.Abs() == Killed(old(s.Abs()))
  {
    var nsessions := |sessions|;
    while nsessions > 0
      invariant 0 <= nsessions <= |sessions|
      invariant forall i :: 0 <= i < nsessions ==>
                  && sessions[i].items == old(sessions[i].items)
                  && sessions[i].WellFormed() && sessions[i].Abs() == old(sessions[i].Abs())
      invariant forall i :: nsessions <= i < |sessions| ==>
                  && sessions[i].WellFormed() && sessions[i].head == null
                  && sessions[i].Abs() == Killed(old(sessions[i].Abs()))
    {
      var session := sessions[nsessions - 1];
      assert session in sessions && forall j :: 0 <= j < |session.items| ==> session.items[j] in old(session.items);
      label Before:
      session.KillQueue();
      nsessions := nsessions - 1;
      forall i | 0 <= i < |sessions| && i != nsessions
        ensures sessions[i].items == old@Before(sessions[i].items) && sessions[i].head == old@Before(sessions[i].head)
        ensures sessions[i].WellFormed() && sessions[i].Abs() == old@Before(sessions[i].Abs())
      {
        assert unchanged@Before(sessions[i]);
        assert forall x :: x in sessions[i].items ==> unchanged@Before(x);
      }
    }
  }

  /** The queue emptied, every item on it freed, in order. */
  ghost function Killed(s: Session): Session {
    s.(queue := [], freed := s.freed + Tickets(s.queue))
  }
}
