/** What the two parties of the print spooler can come to: when a run can end in a
    verdict, when the spooled job is the client's file, when both can be left
    waiting for each other, and when the two directions overlap.  Every condition
    is computed from the queue name, the announced size, the file and the buffers,
    before the session; a handshake of 45 bytes is a special case of each. */
module SpoolOutcomes {
  import opened Wrappers

  import opened Decimal
  import opened SpoolCodec
  import opened SpoolProtocol

  // --------------------------------------------------------------- standing still

  /** Both parties have finished, one way or the other. */
  predicate Settled(s: State) {
    ClientGone(s) && ServerGone(s)
  }

  /** Nothing either program can do will ever change: a deadlock. */
  ghost predicate Stuck(l: Link, s: State) {
    && !Settled(s)
    && (forall k: nat :: ClientStep(l, s, k).None?)
    && (forall k: nat :: ServerStep(l, s, k).None?)
  }

  predicate Standing(l: Link, s: State) {
    ClientStep(l, s, 1).None? && ServerStep(l, s, 1).None?
  }

  /** If a call can move any number of bytes it can move one. */
  lemma OneByteSuffices(l: Link, s: State, k: nat)
    requires Standing(l, s)
    ensures ClientStep(l, s, k).None? && ServerStep(l, s, k).None?
  {
  }

  predicate Undisturbed(run: seq<Action>) {
    forall i :: 0 <= i < |run| ==> run[i].ClientMoves? || run[i].ServerMoves?
  }

  /** Undisturbed, and every call moves a single byte. */
  predicate OneByte(run: seq<Action>) {
    forall i :: 0 <= i < |run| ==> run[i] == ClientMoves(1) || run[i] == ServerMoves(1)
  }

  lemma Extend(l: Link, run: seq<Action>, a: Action)
    requires Run(l, run).Some?
    ensures Run(l, run + [a]) == Next(l, Run(l, run).value, a)
  {
    assert (run + [a])[..|run|] == run;
  }

  /** Any run can be continued, byte by byte, until neither party can move. */
  lemma {:induction false} RunToStandstill(l: Link, run: seq<Action>) returns (longer: seq<Action>)
    requires OneByte(run) && Run(l, run).Some?
    ensures OneByte(longer) && Run(l, longer).Some? && Standing(l, Run(l, longer).value)
    decreases Work(l, Run(l, run).value)
  {
    var s := Run(l, run).value;
    if Standing(l, s) {
      return run;
    }
    var a := if ClientStep(l, s, 1).Some? then ClientMoves(1) else ServerMoves(1);
    RunKeepsInv(l, run);
    NextDoesWork(l, s, a);
    Extend(l, run, a);
    longer := RunToStandstill(l, run + [a]);
  }

  /** While the other side is there, a call of the client can move any number of bytes
      that are there, or wanted, or for which there is room, and no other. */
  lemma ClientCallsMoveAnyCount(l: Link, s: State, k: nat)
    requires !ClientGone(s) && !ServerGone(s)
    ensures s.client.SendHandshake? ==>
              (ClientStep(l, s, k).Some? <==> 1 <= k <= |l.hello| - s.client.sent && |s.c2s| + k <= l.cap)
    ensures s.client.SendData? ==>
              (ClientStep(l, s, k).Some? <==> 1 <= k <= |l.data| - s.client.sent && |s.c2s| + k <= l.cap)
    ensures s.client.AwaitReady? ==>
              (ClientStep(l, s, k).Some? <==> 1 <= k <= 5 - |s.client.got| && k <= |s.s2c|)
    ensures s.client.AwaitAck? ==>
              (ClientStep(l, s, k).Some? <==> 1 <= k <= 7 - |s.client.got| && k <= |s.s2c|)
  {
  }

  lemma ServerCallsMoveAnyCount(l: Link, s: State, k: nat)
    requires !ServerGone(s) && !ClientSilent(s)
    ensures s.server.AwaitHandshake? ==>
              (ServerStep(l, s, k).Some? <==> 1 <= k <= 45 - |s.server.got| && k <= |s.c2s|)
    ensures s.server.AwaitData? ==>
              (ServerStep(l, s, k).Some? <==> 1 <= k <= s.jobSize - |s.server.got| && k <= |s.c2s|)
    ensures s.server.SendReady? ==>
              (ServerStep(l, s, k).Some? <==> 1 <= k <= 5 - s.server.sent && |s.s2c| + k <= l.cap)
    ensures s.server.SendAck? ==>
              (ServerStep(l, s, k).Some? <==> 1 <= k <= 7 - s.server.sent && |s.s2c| + k <= l.cap)
  {
  }

  lemma {:induction false} FinishedStayUp(l: Link, run: seq<Action>)
    requires Run(l, run).Some?
    ensures var s := Run(l, run).value;
            (s.server.ServerDone? ==> s.serverUp) && (s.client.ClientDone? ==> s.clientUp)
    decreases |run|
  {
    if run != [] { FinishedStayUp(l, run[..|run| - 1]); }
  }

  lemma {:induction false} FailedStayDown(l: Link, run: seq<Action>, more: seq<Action>)
    requires Run(l, run).Some? && !Run(l, run).value.serverUp && Run(l, run + more).Some?
    ensures !Run(l, run + more).value.serverUp
    decreases |more|
  {
    if more == [] {
      assert run + more == run;
    } else {
      assert (run + more)[..|run + more| - 1] == run + more[..|more| - 1];
      FailedStayDown(l, run, more[..|more| - 1]);
    }
  }

  /** A timeout may strike the server at any point before it has finished, and then
      no continuation gives the client a verdict. */
  lemma TimeoutLosesVerdict(l: Link, run: seq<Action>, more: seq<Action>)
    requires Run(l, run).Some? && !ServerGone(Run(l, run).value)
    ensures Run(l, run + [ServerTimeout]) == Some(Run(l, run).value.(serverUp := false))
    ensures var all := run + [ServerTimeout] + more;
            Run(l, all).Some? ==> !Run(l, all).value.client.ClientDone?
  {
    Extend(l, run, ServerTimeout);
    var all := run + [ServerTimeout] + more;
    if Run(l, all).Some? {
      FailedStayDown(l, run + [ServerTimeout], more);
      FinishedStayUp(l, all);
      RunKeepsInv(l, all);
    }
  }

  lemma {:induction false} AbortedStayAborted(l: Link, run: seq<Action>, more: seq<Action>)
    requires Run(l, run).Some? && !Run(l, run).value.clientUp && Run(l, run + more).Some?
    ensures !Run(l, run + more).value.clientUp
    decreases |more|
  {
    if more == [] {
      assert run + more == run;
    } else {
      assert (run + more)[..|run + more| - 1] == run + more[..|more| - 1];
      AbortedStayAborted(l, run, more[..|more| - 1]);
    }
  }

  /** The client may go away at any point before its verdict, and then never has one. */
  lemma AbortLosesVerdict(l: Link, run: seq<Action>, more: seq<Action>)
    requires Run(l, run).Some? && !ClientGone(Run(l, run).value)
    ensures Run(l, run + [ClientAbort]) == Some(Run(l, run).value.(clientUp := false))
    ensures var all := run + [ClientAbort] + more;
            Run(l, all).Some? ==> !Run(l, all).value.client.ClientDone?
  {
    Extend(l, run, ClientAbort);
    var all := run + [ClientAbort] + more;
    if Run(l, all).Some? {
      AbortedStayAborted(l, run + [ClientAbort], more);
      FinishedStayUp(l, all);
    }
  }

  // -------------------------------------------------------------------- deadlocks

  /** More handshake than the server takes and the channel holds, while the server
      cannot finish what it has to say unless the client listens. */
  predicate JamsAtHandshake(l: Link) {
    && Announced(l).Job?
    && (|| (l.cap < 5 && |l.hello| > 45 + l.cap)
        || (5 <= l.cap < 12 && |l.hello| > 45 + JobLength(l) + l.cap))
  }

  /** The same with the acknowledgement, while the client sends its file. */
  predicate JamsAtData(l: Link) {
    Announced(l).Job? && l.sizeOk && l.cap < 7 && |Stream(l)| > 45 + JobLength(l) + l.cap
  }

  predicate Deadlocks(l: Link) {
    l.cap == 0 || JamsAtHandshake(l) || JamsAtData(l)
  }

  lemma StandingAtHandshake(l: Link, s: State)
    requires Inv(l, s) && Standing(l, s) && !Settled(s) && s.client.SendHandshake?
    ensures Deadlocks(l)
  {
  }

  lemma StandingAtData(l: Link, s: State)
    requires Inv(l, s) && Standing(l, s) && !Settled(s) && s.client.SendData?
    ensures Deadlocks(l)
  {
  }

  lemma StandingListening(l: Link, s: State)
    requires Inv(l, s) && Standing(l, s) && !Settled(s)
    requires !s.client.SendHandshake? && !s.client.SendData?
    ensures Deadlocks(l)
  {
  }

  /** Until both have finished one of the parties can move, except in a jam. */
  lemma StandsOnlyInJam(l: Link, s: State)
    requires Inv(l, s) && Standing(l, s) && !Settled(s)
    ensures Deadlocks(l)
  {
    if s.client.SendHandshake? { StandingAtHandshake(l, s); }
    else if s.client.SendData? { StandingAtData(l, s); }
    else { StandingListening(l, s); }
  }

  /** How far apart the parties can be. */
  lemma Bounds(l: Link, s: State)
    requires Inv(l, s)
    ensures ClientSaid(l, s.client) <= ServerHeard(l, s.server) + l.cap
    ensures ServerHeard(l, s.server) <= ClientSaid(l, s.client)
    ensures ServerSaid(s.server) <= ClientHeard(s.client) + l.cap
    ensures ClientHeard(s.client) <= ServerSaid(s.server)
    ensures ServerHeard(l, s.server) <= if ServerSaid(s.server) < 5 then 45 else 45 + JobLength(l)
  {
  }

  lemma JamHoldsClient(l: Link, s: State, k: nat)
    requires JamsAtHandshake(l) || JamsAtData(l)
    requires Inv(l, s) && ClientStep(l, s, k).Some? && s.clientUp && s.serverUp
    requires JamsAtHandshake(l) ==> s.client.SendHandshake?
    ensures var t := ClientStep(l, s, k).value;
            t.clientUp && t.serverUp && (JamsAtHandshake(l) ==> t.client.SendHandshake?)
  {
    ClientKeepsInv(l, s, k);
    Bounds(l, s);
    Bounds(l, ClientStep(l, s, k).value);
  }

  /** The server has understood the handshake and is still owed bytes. */
  lemma ServerGoesOn(l: Link, s: State, k: nat)
    requires Inv(l, s) && ServerStep(l, s, k).Some? && s.serverUp
    requires Announced(l).Job? && !ClientGone(s)
    requires s.client.AwaitAck? ==> 45 + JobLength(l) <= |Stream(l)|
    ensures var t := ServerStep(l, s, k).value; t.serverUp && t.clientUp == s.clientUp && t.client == s.client
  {
    NextKeepsInv(l, s, ServerMoves(k));
    Bounds(l, s);
  }

  lemma JamHoldsServer(l: Link, s: State, k: nat)
    requires JamsAtHandshake(l) || JamsAtData(l)
    requires Inv(l, s) && ServerStep(l, s, k).Some? && s.clientUp && s.serverUp
    requires JamsAtHandshake(l) ==> s.client.SendHandshake?
    ensures var t := ServerStep(l, s, k).value;
            t.clientUp && t.serverUp && (JamsAtHandshake(l) ==> t.client.SendHandshake?)
  {
    Bounds(l, s);
    assert !s.client.AwaitAck? && !s.client.ClientDone?;
    ServerGoesOn(l, s, k);
  }

  lemma {:induction false} JamLasts(l: Link, run: seq<Action>)
    requires (JamsAtHandshake(l) || JamsAtData(l)) && Undisturbed(run) && Run(l, run).Some?
    ensures var s := Run(l, run).value;
            s.clientUp && s.serverUp && (JamsAtHandshake(l) ==> s.client.SendHandshake?)
    decreases |run|
  {
    if run != [] {
      var before := run[..|run| - 1];
      JamLasts(l, before);
      RunKeepsInv(l, before);
      var s, a := Run(l, before).value, run[|run| - 1];
      if a.ClientMoves? { JamHoldsClient(l, s, a.k); } else { JamHoldsServer(l, s, a.k); }
    }
  }

  lemma JamHappens(l: Link) returns (run: seq<Action>)
    requires Deadlocks(l)
    ensures Run(l, run).Some? && Standing(l, Run(l, run).value) && !Settled(Run(l, run).value)
  {
    if l.cap == 0 {
      return [];
    }
    run := RunToStandstill(l, []);
    JamLasts(l, run);
    RunKeepsInv(l, run);
  }

  /** Some run ends in a deadlock, if and only if there is no buffer at all, or the
      two parties can both be sending more than the buffers hold. */
  lemma DeadlockExactly(l: Link)
    ensures (exists run :: Run(l, run).Some? && Stuck(l, Run(l, run).value)) <==> Deadlocks(l)
  {
    if Deadlocks(l) {
      var run := JamHappens(l);
      forall k: nat { OneByteSuffices(l, Run(l, run).value, k); }
      assert Stuck(l, Run(l, run).value);
    }
    forall run | Run(l, run).Some? && Stuck(l, Run(l, run).value) ensures Deadlocks(l) {
      RunKeepsInv(l, run);
      StandsOnlyInJam(l, Run(l, run).value);
    }
  }

  // --------------------------------------------------------------------- verdicts

  /** The server understands the first 45 bytes, gets as many bytes as they
      announce, and what is left over fits in the buffer; and the client gets to
      the end of its handshake. */
  predicate VerdictPossible(l: Link) {
    && l.cap >= 1 && l.sizeOk && Announced(l).Job?
    && 45 + JobLength(l) <= |Stream(l)| <= 45 + JobLength(l) + l.cap
    && (l.cap >= 5 || |l.hello| <= 45 + l.cap)
  }

  /** Nothing is left over either. */
  predicate Matches(l: Link) {
    l.sizeOk && Announced(l).Job? && |Stream(l)| == 45 + JobLength(l)
  }

  /** A client that has more to send, but no room, does not face a finished server. */
  lemma ServerStillThere(l: Link, s: State)
    requires Inv(l, s) && s.serverUp && (s.client.SendHandshake? || s.client.SendData?)
    requires Matches(l) || (VerdictPossible(l) && |s.c2s| == l.cap)
    ensures !ServerGone(s)
  {
    Bounds(l, s);
    assert ClientSaid(l, s.client) < |Stream(l)|;
  }

  lemma AwaitReadyStaysUp(l: Link, s: State, k: nat)
    requires Inv(l, s) && s.clientUp && s.serverUp && s.client.AwaitReady? && ClientStep(l, s, k).Some?
    requires l.sizeOk
    ensures ClientStep(l, s, k).value.clientUp && ClientStep(l, s, k).value.serverUp
  {
    AwaitReadyKeepsInv(l, s, k);
    Bounds(l, s);
  }

  lemma AwaitAckStaysUp(l: Link, s: State, k: nat)
    requires Inv(l, s) && s.clientUp && s.serverUp && s.client.AwaitAck? && ClientStep(l, s, k).Some?
    ensures ClientStep(l, s, k).value.clientUp && ClientStep(l, s, k).value.serverUp
  {
    Bounds(l, s);
  }

  lemma ClientStaysUp(l: Link, s: State, k: nat)
    requires Inv(l, s) && s.clientUp && s.serverUp && ClientStep(l, s, k).Some?
    requires Matches(l) || (VerdictPossible(l) && k == 1)
    ensures ClientStep(l, s, k).value.clientUp && ClientStep(l, s, k).value.serverUp
  {
    if s.client.SendHandshake? || s.client.SendData? {
      if Matches(l) || |s.c2s| == l.cap { ServerStillThere(l, s); }
    } else if s.client.AwaitReady? {
      AwaitReadyStaysUp(l, s, k);
    } else {
      AwaitAckStaysUp(l, s, k);
    }
  }

  lemma ServerStaysUp(l: Link, s: State, k: nat)
    requires Inv(l, s) && s.clientUp && s.serverUp && ServerStep(l, s, k).Some?
    requires Matches(l) || VerdictPossible(l)
    ensures ServerStep(l, s, k).value.clientUp && ServerStep(l, s, k).value.serverUp
  {
    Bounds(l, s);
    ServerGoesOn(l, s, k);
  }

  lemma {:induction false} BothStayUp(l: Link, run: seq<Action>)
    requires Run(l, run).Some?
    requires (Matches(l) && Undisturbed(run)) || (VerdictPossible(l) && OneByte(run))
    ensures Run(l, run).value.clientUp && Run(l, run).value.serverUp
    decreases |run|
  {
    if run != [] {
      var before := run[..|run| - 1];
      BothStayUp(l, before);
      RunKeepsInv(l, before);
      match run[|run| - 1]
      case ClientMoves(k) => ClientStaysUp(l, Run(l, before).value, k);
      case ServerMoves(k) => ServerStaysUp(l, Run(l, before).value, k);
    }
  }

  lemma VerdictHappens(l: Link) returns (run: seq<Action>)
    requires VerdictPossible(l)
    ensures OneByte(run) && Run(l, run).Some? && Run(l, run).value.client.ClientDone?
  {
    run := RunToStandstill(l, []);
    BothStayUp(l, run);
    RunKeepsInv(l, run);
    if !Settled(Run(l, run).value) { StandsOnlyInJam(l, Run(l, run).value); }
  }

  lemma HandshakeStaysUnsent(l: Link, s: State, a: Action)
    requires Inv(l, s) && s.client.SendHandshake? && Next(l, s, a).Some?
    requires l.cap == 0 || (l.cap < 5 && |l.hello| > 45 + l.cap)
    ensures Next(l, s, a).value.client.SendHandshake?
  {
    if a.ClientMoves? && CanSend(l, s.c2s, l.hello, s.client.sent, a.k) {
      NextKeepsInv(l, s, a);
      assert ClientHeard(Next(l, s, a).value.client) == 0;
      assert ServerHeard(l, s.server) <= 45;
    }
  }

  /** A client that cannot put the end of its handshake into the channel before
      the server reads on never gets past it. */
  lemma {:induction false} HandshakeNeverSent(l: Link, run: seq<Action>)
    requires Run(l, run).Some?
    requires l.cap == 0 || (l.cap < 5 && |l.hello| > 45 + l.cap)
    ensures Run(l, run).value.client.SendHandshake?
    decreases |run|
  {
    if run != [] {
      var before := run[..|run| - 1];
      HandshakeNeverSent(l, before);
      RunKeepsInv(l, before);
      HandshakeStaysUnsent(l, Run(l, before).value, run[|run| - 1]);
    }
  }

  /** Some run gives the client a verdict if and only if VerdictPossible. */
  lemma VerdictExactly(l: Link)
    ensures (exists run :: Run(l, run).Some? && Run(l, run).value.client.ClientDone?) <==> VerdictPossible(l)
  {
    if VerdictPossible(l) {
      var run := VerdictHappens(l);
    }
    forall run | Run(l, run).Some? && Run(l, run).value.client.ClientDone? ensures VerdictPossible(l) {
      RunKeepsInv(l, run);
      if l.cap < 5 && (l.cap == 0 || |l.hello| > 45 + l.cap) { HandshakeNeverSent(l, run); }
    }
  }

  ghost predicate JobIsTheFile(u: Setup) {
    forall run :: Run(LinkOf(u), run).Some? && Run(LinkOf(u), run).value.client.ClientDone?
      ==> u.statSize <= |u.file| && Run(LinkOf(u), run).value.job == u.file[..u.statSize]
  }

  lemma VerdictJob(u: Setup, run: seq<Action>)
    requires Run(LinkOf(u), run).Some? && Run(LinkOf(u), run).value.client.ClientDone?
    ensures VerdictPossible(LinkOf(u))
    ensures u.statSize <= |u.file| && Data(u) == u.file[..u.statSize]
    ensures Run(LinkOf(u), run).value.job == JobSeen(LinkOf(u))
  {
    VerdictExactly(LinkOf(u));
    RunKeepsInv(LinkOf(u), run);
  }

  /** In every run that gives the client a verdict the server holds the announced
      bytes of its file, if and only if no run gives it one or those bytes are the
      ones the server finds after the first 45. */
  lemma JobIsTheFileExactly(u: Setup)
    ensures JobIsTheFile(u) <==> (VerdictPossible(LinkOf(u)) ==> JobSeen(LinkOf(u)) == Data(u))
  {
    if VerdictPossible(LinkOf(u)) {
      var run := VerdictHappens(LinkOf(u));
      VerdictJob(u, run);
    }
    forall run | Run(LinkOf(u), run).Some? && Run(LinkOf(u), run).value.client.ClientDone?
      ensures VerdictPossible(LinkOf(u)) && u.statSize <= |u.file| && Data(u) == u.file[..u.statSize]
      ensures Run(LinkOf(u), run).value.job == JobSeen(LinkOf(u))
    {
      VerdictJob(u, run);
    }
  }

  /** Neither program fails by itself when the job the server reads ends where the
      client's messages do. */
  lemma NobodyFails(l: Link, run: seq<Action>)
    requires Matches(l) && Undisturbed(run) && Run(l, run).Some?
    ensures Run(l, run).value.clientUp && Run(l, run).value.serverUp
  {
    BothStayUp(l, run);
  }

  /** Whatever the fragmentation, such a session, undisturbed and not jammed, can
      only stand still once both parties have the same true verdict and the server
      has everything that followed the first 45 bytes. */
  lemma SessionCompletes(l: Link, run: seq<Action>)
    requires Matches(l) && !Deadlocks(l) && Undisturbed(run) && Run(l, run).Some?
    requires Standing(l, Run(l, run).value)
    ensures var s := Run(l, run).value;
            && s.client == ClientDone(Spooled(l, s.job)) && s.server == ServerDone(Spooled(l, s.job))
            && s.job == (l.hello + l.data)[45..]
  {
    BothStayUp(l, run);
    RunKeepsInv(l, run);
    if !Settled(Run(l, run).value) { StandsOnlyInJam(l, Run(l, run).value); }
  }

  /** A handshake that is refused, or that announces more than will be sent, never
      yields a verdict or a finished server. */
  lemma BadAnnouncementFails(l: Link, run: seq<Action>)
    requires Run(l, run).Some?
    requires !Announced(l).Job? || 45 + JobLength(l) > if l.sizeOk then |Stream(l)| else |l.hello|
    ensures !Run(l, run).value.client.ClientDone? && !Run(l, run).value.server.ServerDone?
  {
    RunKeepsInv(l, run);
  }

  // ----------------------------------------------------------------- taking turns

  /** At most one direction has bytes in flight. */
  ghost predicate TakesTurns(l: Link) {
    forall run :: Run(l, run).Some? ==> Run(l, run).value.c2s == [] || Run(l, run).value.s2c == []
  }

  /** Client and server alternate, a byte at a time, for n bytes of the handshake. */
  lemma {:induction false} Pump(l: Link, n: nat) returns (run: seq<Action>)
    requires l.cap >= 1 && n <= 45 < |l.hello| && Announced(l).Job?
    ensures Run(l, run).Some?
    ensures var s := Run(l, run).value;
            && s.client == SendHandshake(n) && s.c2s == [] && s.s2c == [] && s.clientUp && s.serverUp
            && (if n < 45 then s.server.AwaitHandshake? && |s.server.got| == n else s.server == SendReady(0))
    decreases n
  {
    run := [];
    if n > 0 {
      run := Pump(l, n - 1);
      RunKeepsInv(l, run);
      var s := Run(l, run).value;
      Extend(l, run, ClientMoves(1));
      NextKeepsInv(l, s, ClientMoves(1));
      var t := ClientStep(l, s, 1).value;
      run := run + [ClientMoves(1)];
      Extend(l, run, ServerMoves(1));
      NextKeepsInv(l, t, ServerMoves(1));
      run := run + [ServerMoves(1)];
    }
  }

  /** One more byte from each, and both channels are in use. */
  lemma Overlap(l: Link)
    requires l.cap >= 1 && 45 < |l.hello| && Announced(l).Job?
    ensures !TakesTurns(l)
  {
    var run := Pump(l, 45);
    Extend(l, run, ClientMoves(1));
    Extend(l, run + [ClientMoves(1)], ServerMoves(1));
    var s := Run(l, run + [ClientMoves(1)] + [ServerMoves(1)]).value;
    assert |s.c2s| == 1 && |s.s2c| == 1;
  }

  lemma FittingHandshake(u: Setup)
    requires |Hello(u)| == 45
    ensures Parse(Hello(u)) == if u.statSize == 0 then ZeroSize else Job(Strip(u.queue), u.statSize)
  {
    PrintFits(u.statSize, 10);
    HandshakeParses(u.queue, u.statSize);
  }

  /** With a handshake of 45 bytes the server is told what the client means. */
  lemma FittingLink(u: Setup)
    requires |Hello(u)| == 45
    ensures Announced(LinkOf(u)) == if u.statSize == 0 then ZeroSize else Job(Strip(u.queue), u.statSize)
    ensures JobLength(LinkOf(u)) == u.statSize
  {
    FittingHandshake(u);
    assert Hello(u)[..45] == Hello(u);
  }

  lemma RestOf(hello: Bytes, data: Bytes)
    requires |hello| == 45
    ensures (hello + data)[45..45 + |data|] == data
  {
  }

  lemma FittingJob(u: Setup)
    requires |Hello(u)| == 45 && |Data(u)| == u.statSize == JobLength(LinkOf(u))
    ensures |Stream(LinkOf(u))| == 45 + u.statSize && JobSeen(LinkOf(u)) == Data(u)
  {
    RestOf(Hello(u), Data(u));
    assert Stream(LinkOf(u)) == Hello(u) + Data(u);
  }

  lemma MatchingTurns(l: Link, run: seq<Action>)
    requires |l.hello| == 45 && (l.sizeOk ==> |l.data| == JobLength(l)) && Run(l, run).Some?
    ensures Run(l, run).value.c2s == [] || Run(l, run).value.s2c == []
  {
    RunKeepsInv(l, run);
  }

  lemma FittingTurns(u: Setup, run: seq<Action>)
    requires |Hello(u)| == 45 && Run(LinkOf(u), run).Some?
    ensures Run(LinkOf(u), run).value.c2s == [] || Run(LinkOf(u), run).value.s2c == []
  {
    FittingLink(u);
    MatchingTurns(LinkOf(u), run);
  }

  /** The two directions never overlap, in any run, if and only if the handshake
      has 45 bytes or is refused, or there is no buffer. */
  lemma ChannelsTakeTurns(u: Setup)
    ensures TakesTurns(LinkOf(u)) <==> |Hello(u)| == 45 || !Announced(LinkOf(u)).Job? || u.cap == 0
  {
    var l := LinkOf(u);
    if |l.hello| > 45 && Announced(l).Job? && l.cap >= 1 {
      Overlap(l);
    } else {
      forall run | Run(l, run).Some? ensures Run(l, run).value.c2s == [] || Run(l, run).value.s2c == [] {
        RunKeepsInv(l, run);
        if |Hello(u)| == 45 { FittingTurns(u, run); }
      }
    }
  }

  // ----------------------------------------------------- a handshake of 45 bytes

  /** The name has at most 30 bytes and the size at most ten digits: in every run a
      verdict means that the server holds exactly the announced bytes of the file,
      under the client's queue name. */
  lemma FittingVerdictIsTruth(u: Setup, run: seq<Action>)
    requires |Hello(u)| == 45 && Run(LinkOf(u), run).Some?
    requires Run(LinkOf(u), run).value.client.ClientDone?
    ensures var s := Run(LinkOf(u), run).value;
            && s.server == ServerDone(s.client.ok)
            && 1 <= u.statSize <= |u.file| && s.job == u.file[..u.statSize]
            && s.queue == Strip(u.queue)
            && (s.client.ok <==>
                  (exists i :: 0 <= i <= |s.job| - 14 && s.job[i..][..14] == "Cannot get TTY") || u.lpOk)
  {
    VerdictIsTruth(LinkOf(u), run);
    FittingLink(u);
    VerdictJob(u, run);
    FittingJob(u);
  }

  /** No deadlock with any buffer size. */
  lemma FittingNeverJams(u: Setup)
    requires |Hello(u)| == 45 && u.cap >= 1
    ensures !Deadlocks(LinkOf(u))
  {
    FittingLink(u);
    if |Data(u)| == u.statSize { FittingJob(u); }
  }

  /** Whatever the fragmentation, an undisturbed session that can go no further
      has ended with the job spooled byte for byte and a true verdict. */
  lemma FittingSessionCompletes(u: Setup, run: seq<Action>)
    requires |Hello(u)| == 45 && u.cap >= 1 && 1 <= u.statSize <= |u.file|
    requires Undisturbed(run) && Run(LinkOf(u), run).Some? && Standing(LinkOf(u), Run(LinkOf(u), run).value)
    ensures var s := Run(LinkOf(u), run).value;
            && s.client.ClientDone? && s.server == ServerDone(s.client.ok)
            && (s.client.ok <==>
                  (exists i :: 0 <= i <= |s.job| - 14 && s.job[i..][..14] == "Cannot get TTY") || u.lpOk)
            && s.job == u.file[..u.statSize]
  {
    FittingLink(u);
    FittingJob(u);
    FittingNeverJams(u);
    SessionCompletes(LinkOf(u), run);
    FittingVerdictIsTruth(u, run);
  }

  /** A zero-sized announcement, or a file shorter than announced, never yields a
      verdict. */
  lemma FittingBadAnnouncementFails(u: Setup, run: seq<Action>)
    requires |Hello(u)| == 45 && Run(LinkOf(u), run).Some?
    requires u.statSize == 0 || |u.file| < u.statSize
    ensures var s := Run(LinkOf(u), run).value; !s.client.ClientDone? && !s.server.ServerDone?
  {
    FittingLink(u);
    BadAnnouncementFails(LinkOf(u), run);
  }

  // ------------------------------------------------- a queue name that does not fit

  /** A 31-byte queue name ending in the digit 1, a one-byte file. */
  function LongName(name: Bytes): Setup {
    Setup(name + "1", 1, "X", true, 64)
  }

  const BLANKS: Bytes := [' ', ' ', ' ', ' ', ' ', ' ', ' ', ' ', ' ']

  lemma PaddedOne()
    ensures PadLeft(Print(1), 10) == BLANKS + "1"
  {
    assert Spaces(9) == BLANKS by {
      assert Spaces(1) == [' '] + Spaces(0);
      assert Spaces(3) == [' ', ' '] + Spaces(1);
      assert Spaces(5) == [' ', ' '] + Spaces(3);
      assert Spaces(7) == [' ', ' '] + Spaces(5);
    }
    assert Print(1) == "1";
  }

  lemma LongNameHello(name: Bytes)
    requires |name| == 30
    ensures var h := Hello(LongName(name)); |h| == 46 && h[45] == '1' && Parse(h[..45]) == Job(Strip(name), 1)
  {
    var h := Hello(LongName(name));
    PaddedOne();
    assert h == "SPOOL" + (name + "1") + (BLANKS + "1");
    var head := "SPOOL" + name;
    assert h == head + ("1" + BLANKS) + "1" && |head| == 35;
    assert h[..45][35..45] == "1" + BLANKS;
    OneAndBlanks(BLANKS);
    assert h[..45][5..35] == name && h[..45][..5] == "SPOOL";
    assert Value("1") == 1 by { assert "1"[..0] == []; }
  }

  lemma {:induction false} OneAndBlanks(blanks: Bytes)
    requires forall i :: 0 <= i < |blanks| ==> blanks[i] == ' '
    ensures Strip("1" + blanks) == "1"
    decreases |blanks|
  {
    var s := "1" + blanks;
    if blanks == [] {
      assert s == "1";
    } else {
      OneAndBlanks(blanks[..|blanks| - 1]);
      assert s[..|s| - 1] == "1" + blanks[..|blanks| - 1];
    }
  }

  lemma LongNameLink(name: Bytes)
    requires |name| == 30
    ensures var l := LinkOf(LongName(name));
            VerdictPossible(l) && l.data == "X" && JobSeen(l) == "1" && Verdict(l)
  {
    var l := LinkOf(LongName(name));
    LongNameHello(name);
    assert Announced(l) == Job(Strip(name), 1) && JobLength(l) == 1 && |Stream(l)| == 47;
    assert JobSeen(l) == [Stream(l)[45]] == "1";
  }

  /** The condition is not met by every name: here an undisturbed run tells the
      client SUCCESS although the server spooled the tail of the handshake instead
      of the file. */
  lemma LongNameCorruptsJob(name: Bytes)
    requires |name| == 30
    ensures !JobIsTheFile(LongName(name))
    ensures exists run :: Undisturbed(run) && Run(LinkOf(LongName(name)), run).Some?
              && var s := Run(LinkOf(LongName(name)), run).value;
                 s.client == ClientDone(true) && s.job == "1" && LongName(name).file == "X"
  {
    var u := LongName(name);
    LongNameLink(name);
    assert "1"[0] != "X"[0];
    JobIsTheFileExactly(u);
    var run := VerdictHappens(LinkOf(u));
    VerdictJob(u, run);
    VerdictIsTruth(LinkOf(u), run);
    assert Undisturbed(run);
  }
}
