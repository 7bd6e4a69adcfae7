/** The print spooler's two parties over two bounded byte channels.  One step is
    one send or recv call that moves any possible number of bytes, so a run is any
    fragmentation of every message and any interleaving of the two programs.  The
    server takes the first 45 bytes it is sent for the handshake; nothing here
    assumes that the client's handshake ends there. */
module SpoolProtocol {
  import opened Wrappers

  import opened SpoolCodec

  /** queue and statSize are what the client announces, file what it later reads,
      lpOk what lp reports, cap the size of a socket buffer. */
  datatype Setup = Setup(queue: Bytes, statSize: nat, file: Bytes, lpOk: bool, cap: nat)

  type Message = s: Bytes | |s| >= 45 witness Handshake([], 0)

  /** All that the exchange depends on: the client's two messages, whether the file
      still has the announced size, what lp reports, and the buffers. */
  datatype Link = Link(hello: Message, data: Bytes, sizeOk: bool, lpOk: bool, cap: nat)

  function Hello(u: Setup): Bytes {
    Handshake(u.queue, u.statSize)
  }

  /** open(spoolfile).read(jobsize) */
  function Data(u: Setup): Bytes {
    if u.statSize <= |u.file| then u.file[..u.statSize] else u.file
  }

  function LinkOf(u: Setup): Link {
    Link(Hello(u), Data(u), |Data(u)| == u.statSize, u.lpOk, u.cap)
  }

  datatype ClientPhase =
    | SendHandshake(sent: nat)
    | AwaitReady(got: Bytes)
    | SendData(sent: nat)
    | AwaitAck(got: Bytes)
    | ClientDone(ok: bool)

  datatype ServerPhase =
    | AwaitHandshake(got: Bytes)
    | SendReady(sent: nat)
    | AwaitData(got: Bytes)
    | SendAck(ok: bool, sent: nat)
    | ServerDone(ok: bool)

  /** The up flags fall when a party raises an exception; its phase then tells
      where it stopped. */
  datatype State = State(
    client: ClientPhase, server: ServerPhase, clientUp: bool, serverUp: bool,
    c2s: Bytes, s2c: Bytes, queue: Bytes, jobSize: int, job: Bytes)

  const INIT := State(SendHandshake(0), AwaitHandshake([]), true, true, [], [], [], 0, [])

  function Ack(ok: bool): (r: Bytes)
    ensures |r| == 7
  {
    if ok then "SUCCESS" else "FAILURE"
  }

  /** t stands in s at position i. */
  predicate StandsAt(s: Bytes, t: Bytes, i: int) {
    0 <= i <= |s| - |t| && s[i..i + |t|] == t
  }

  predicate Ignored(job: Bytes) {
    exists i :: 0 <= i <= |job| && StandsAt(job, "Cannot get TTY", i)
  }

  /** Which jobs are ignored: none of less than 14 bytes, and any that holds the
      message somewhere. */
  lemma IgnoredExactly(job: Bytes)
    ensures Ignored(job) <==> exists i :: 0 <= i <= |job| - 14 && job[i..][..14] == "Cannot get TTY"
    ensures |job| < 14 ==> !Ignored(job)
  {
    forall i | 0 <= i <= |job| - 14 ensures job[i..][..14] == job[i..i + 14] {
    }
    if i :| 0 <= i <= |job| - 14 && job[i..][..14] == "Cannot get TTY" {
      assert StandsAt(job, "Cannot get TTY", i);
    }
    if i :| 0 <= i <= |job| && StandsAt(job, "Cannot get TTY", i) {
      assert job[i..][..14] == "Cannot get TTY";
    }
  }

  lemma MessageIsIgnored(a: Bytes, b: Bytes)
    ensures Ignored(a + "Cannot get TTY" + b)
  {
    assert StandsAt(a + "Cannot get TTY" + b, "Cannot get TTY", |a|);
  }

  predicate Spooled(l: Link, job: Bytes) {
    Ignored(job) || l.lpOk
  }

  // ------------------------------------------------------------------------ steps

  /** A send of k more bytes of msg is possible. */
  predicate CanSend(l: Link, channel: Bytes, msg: Bytes, sent: nat, k: nat) {
    1 <= k <= |msg| - sent && |channel| + k <= l.cap
  }

  /** A recv may return k bytes when need are still missing. */
  predicate CanRecv(channel: Bytes, need: int, k: nat) {
    1 <= k <= need && k <= |channel|
  }

  predicate ServerGone(s: State) {
    !s.serverUp || s.server.ServerDone?
  }

  predicate ClientGone(s: State) {
    !s.clientUp || s.client.ClientDone?
  }

  /** The client has shut down its sending side. */
  predicate ClientSilent(s: State) {
    ClientGone(s) || s.client.AwaitAck?
  }

  function ClientFails(s: State): State {
    s.(clientUp := false)
  }

  function ServerFails(s: State): State {
    s.(serverUp := false)
  }

  /** The job is complete: ignore it or hand it to lp, then report. */
  function JobRead(l: Link, s: State, job: Bytes): State {
    s.(job := job, server := SendAck(Spooled(l, job), 0))
  }

  /** The handshake is complete: refuse it or remember what it announces. */
  function HandshakeRead(s: State, p: Parsed): State {
    if p.Job? then s.(server := SendReady(0), queue := p.queue, jobSize := p.size) else ServerFails(s)
  }

  function SendHandshakeStep(l: Link, s: State, k: nat): Option<State>
    requires s.client.SendHandshake?
  {
    var sent := s.client.sent;
    if CanSend(l, s.c2s, l.hello, sent, k) then
      Some(s.(c2s := s.c2s + l.hello[sent..sent + k],
              client := if sent + k < |l.hello| then SendHandshake(sent + k) else AwaitReady([])))
    else if ServerGone(s) then Some(ClientFails(s)) else None
  }

  function AwaitReadyStep(l: Link, s: State, k: nat): Option<State>
    requires s.client.AwaitReady?
  {
    var got := s.client.got;
    if CanRecv(s.s2c, 5 - |got|, k) then
      var got' := got + s.s2c[..k];
      var s' := s.(s2c := s.s2c[k..], client := AwaitReady(got'));
      if |got'| < 5 then Some(s')
      else if got' != "READY" || !l.sizeOk then Some(ClientFails(s'))
      else Some(s'.(client := if l.data == [] then AwaitAck([]) else SendData(0)))
    else if s.s2c == [] && ServerGone(s) then Some(ClientFails(s)) else None
  }

  function SendDataStep(l: Link, s: State, k: nat): Option<State>
    requires s.client.SendData?
  {
    var sent := s.client.sent;
    if CanSend(l, s.c2s, l.data, sent, k) then
      Some(s.(c2s := s.c2s + l.data[sent..sent + k],
              client := if sent + k < |l.data| then SendData(sent + k) else AwaitAck([])))
    else if ServerGone(s) then Some(ClientFails(s)) else None
  }

  function AwaitAckStep(l: Link, s: State, k: nat): Option<State>
    requires s.client.AwaitAck?
  {
    var got := s.client.got;
    if CanRecv(s.s2c, 7 - |got|, k) then
      var got' := got + s.s2c[..k];
      Some(s.(s2c := s.s2c[k..],
              client := if |got'| < 7 then AwaitAck(got') else ClientDone(got' == "SUCCESS")))
    else if s.s2c == [] && ServerGone(s) then Some(ClientFails(s)) else None
  }

  function ClientStep(l: Link, s: State, k: nat): Option<State> {
    if ClientGone(s) then None else
    match s.client
    case SendHandshake(_) => SendHandshakeStep(l, s, k)
    case AwaitReady(_) => AwaitReadyStep(l, s, k)
    case SendData(_) => SendDataStep(l, s, k)
    case AwaitAck(_) => AwaitAckStep(l, s, k)
    case ClientDone(_) => None
  }

  function AwaitHandshakeStep(l: Link, s: State, k: nat): Option<State>
    requires s.server.AwaitHandshake?
  {
    var got := s.server.got;
    if CanRecv(s.c2s, 45 - |got|, k) then
      var got' := got + s.c2s[..k];
      var s' := s.(c2s := s.c2s[k..], server := AwaitHandshake(got'));
      if |got'| < 45 then Some(s') else Some(HandshakeRead(s', Parse(got')))
    else if s.c2s == [] && ClientSilent(s) then Some(ServerFails(s)) else None
  }

  function SendReadyStep(l: Link, s: State, k: nat): Option<State>
    requires s.server.SendReady?
  {
    var sent := s.server.sent;
    if CanSend(l, s.s2c, "READY", sent, k) then
      var s' := s.(s2c := s.s2c + "READY"[sent..sent + k]);
      if sent + k < 5 then Some(s'.(server := SendReady(sent + k)))
      else if s.jobSize > 0 then Some(s'.(server := AwaitData([])))
      else Some(JobRead(l, s', []))
    else if ClientGone(s) then Some(ServerFails(s)) else None
  }

  function AwaitDataStep(l: Link, s: State, k: nat): Option<State>
    requires s.server.AwaitData?
  {
    var got := s.server.got;
    if CanRecv(s.c2s, s.jobSize - |got|, k) then
      var got' := got + s.c2s[..k];
      var s' := s.(c2s := s.c2s[k..]);
      if |got'| < s.jobSize then Some(s'.(server := AwaitData(got'))) else Some(JobRead(l, s', got'))
    else if s.c2s == [] && ClientSilent(s) then Some(ServerFails(s)) else None
  }

  function SendAckStep(l: Link, s: State, k: nat): Option<State>
    requires s.server.SendAck?
  {
    var ok, sent := s.server.ok, s.server.sent;
    if CanSend(l, s.s2c, Ack(ok), sent, k) then
      Some(s.(s2c := s.s2c + Ack(ok)[sent..sent + k],
              server := if sent + k < 7 then SendAck(ok, sent + k) else ServerDone(ok)))
    else if ClientGone(s) then Some(ServerFails(s)) else None
  }

  function ServerStep(l: Link, s: State, k: nat): Option<State> {
    if ServerGone(s) then None else
    match s.server
    case AwaitHandshake(_) => AwaitHandshakeStep(l, s, k)
    case SendReady(_) => SendReadyStep(l, s, k)
    case AwaitData(_) => AwaitDataStep(l, s, k)
    case SendAck(_, _) => SendAckStep(l, s, k)
    case ServerDone(_) => None
  }

  /** Timeouts and lost connections may strike either party at any point. */
  datatype Action = ClientMoves(k: nat) | ServerMoves(k: nat) | ServerTimeout | ClientAbort

  function Next(l: Link, s: State, a: Action): Option<State> {
    match a
    case ClientMoves(k) => ClientStep(l, s, k)
    case ServerMoves(k) => ServerStep(l, s, k)
    case ServerTimeout => if ServerGone(s) then None else Some(ServerFails(s))
    case ClientAbort => if ClientGone(s) then None else Some(ClientFails(s))
  }

  /** The state a run ends in, if all its actions are possible. */
  function Run(l: Link, run: seq<Action>): Option<State> {
    if run == [] then Some(INIT) else
    var s := Run(l, run[..|run| - 1]);
    if s.None? then None else Next(l, s.value, run[|run| - 1])
  }

  // -------------------------------------------------------------------- invariant

  /** All the client has to send, and all the server has to send. */
  function Stream(l: Link): Bytes {
    l.hello + l.data
  }

  function Replies(l: Link): (r: Bytes)
    ensures |r| == 12
  {
    "READY" + Ack(Verdict(l))
  }

  function Announced(l: Link): Parsed {
    Parse(l.hello[..45])
  }

  /** How many bytes the server takes for the job: none for a negative size. */
  function JobLength(l: Link): nat {
    if Announced(l).Job? && Announced(l).size > 0 then Announced(l).size else 0
  }

  /** The job as the server sees it: what follows the first 45 bytes. */
  function JobSeen(l: Link): Bytes {
    if 45 + JobLength(l) <= |Stream(l)| then Stream(l)[45..45 + JobLength(l)] else []
  }

  predicate Verdict(l: Link) {
    Spooled(l, JobSeen(l))
  }

  /** How far the two parties are, in bytes of Stream and of Replies. */
  function ClientSaid(l: Link, c: ClientPhase): int {
    match c
    case SendHandshake(n) => n
    case AwaitReady(_) => |l.hello|
    case SendData(n) => |l.hello| + n
    case _ => |Stream(l)|
  }

  function ServerHeard(l: Link, p: ServerPhase): int {
    match p
    case AwaitHandshake(got) => |got|
    case SendReady(_) => 45
    case AwaitData(got) => 45 + |got|
    case _ => 45 + JobLength(l)
  }

  function ServerSaid(p: ServerPhase): int {
    match p
    case AwaitHandshake(_) => 0
    case SendReady(n) => n
    case AwaitData(_) => 5
    case SendAck(_, n) => 5 + n
    case ServerDone(_) => 12
  }

  function ClientHeard(c: ClientPhase): int {
    match c
    case SendHandshake(_) => 0
    case AwaitReady(got) => |got|
    case SendData(_) => 5
    case AwaitAck(got) => 5 + |got|
    case ClientDone(_) => 12
  }

  /** A channel holds what has been said and not yet heard. */
  predicate InFlight(msg: Bytes, heard: int, channel: Bytes, said: int, cap: nat) {
    0 <= heard <= said <= |msg| && |channel| == said - heard <= cap && channel <= msg[heard..]
  }

  predicate ClientOk(l: Link, c: ClientPhase, up: bool) {
    match c
    case SendHandshake(n) => n < |l.hello|
    case AwaitReady(got) => |got| <= 5 && got <= Replies(l) && (|got| == 5 ==> !up && !l.sizeOk)
    case SendData(n) => n < |l.data| && l.sizeOk
    case AwaitAck(got) => |got| < 7 && got <= Replies(l)[5..] && l.sizeOk
    case ClientDone(ok) => ok == Verdict(l) && l.sizeOk
  }

  predicate JobHeld(l: Link, job: Bytes, ok: bool) {
    45 + JobLength(l) <= |Stream(l)| && job == JobSeen(l) && ok == Verdict(l)
  }

  predicate ServerOk(l: Link, p: ServerPhase, up: bool, queue: Bytes, jobSize: int, job: Bytes) {
    && (!p.AwaitHandshake? ==> Announced(l) == Job(queue, jobSize))
    && match p
       case AwaitHandshake(got) =>
         |got| <= 45 && got <= Stream(l) && (|got| == 45 ==> !up && !Announced(l).Job?)
       case SendReady(n) => n < 5
       case AwaitData(got) => |got| < jobSize && got <= Stream(l)[45..]
       case SendAck(ok, n) => n < 7 && JobHeld(l, job, ok)
       case ServerDone(ok) => JobHeld(l, job, ok)
  }

  predicate Outward(l: Link, s: State) {
    InFlight(Stream(l), ServerHeard(l, s.server), s.c2s, ClientSaid(l, s.client), l.cap)
  }

  predicate Inward(l: Link, s: State) {
    InFlight(Replies(l), ClientHeard(s.client), s.s2c, ServerSaid(s.server), l.cap)
  }

  /** The two programs are always in step: each is somewhere in its own exchange,
      and each channel holds exactly what its reader has yet to hear. */
  predicate Inv(l: Link, s: State) {
    && ClientOk(l, s.client, s.clientUp)
    && ServerOk(l, s.server, s.serverUp, s.queue, s.jobSize, s.job)
    && Outward(l, s)
    && Inward(l, s)
  }

  /** A send of k more bytes of a part of msg that starts at base. */
  lemma Says(msg: Bytes, heard: int, channel: Bytes, cap: nat, base: nat, part: Bytes, sent: nat, k: nat)
    requires InFlight(msg, heard, channel, base + sent, cap)
    requires base + |part| <= |msg| && msg[base..base + |part|] == part
    requires sent + k <= |part| && |channel| + k <= cap
    ensures InFlight(msg, heard, channel + part[sent..sent + k], base + sent + k, cap)
  {
    var longer := channel + part[sent..sent + k];
    forall i | 0 <= i < |longer| ensures longer[i] == msg[heard..][i] {
      if i >= |channel| {
        assert part[sent + i - |channel|] == msg[base..base + |part|][sent + i - |channel|];
      }
    }
  }

  /** A recv of k more bytes of a part of msg that starts at base. */
  lemma Hears(msg: Bytes, base: nat, got: Bytes, channel: Bytes, said: int, cap: nat, k: nat)
    requires InFlight(msg, base + |got|, channel, said, cap)
    requires base <= |msg| && got <= msg[base..] && k <= |channel|
    ensures InFlight(msg, base + |got| + k, channel[k..], said, cap)
    ensures got + channel[..k] <= msg[base..]
  {
  }

  lemma WholeReply(l: Link)
    ensures Replies(l)[..5] == Replies(l)[0..5] == "READY"
    ensures Replies(l)[5..] == Replies(l)[5..12] == Ack(Verdict(l))
    ensures Replies(l)[0..] == Replies(l)
    ensures Ack(true) != Ack(false)
  {
    assert "SUCCESS"[0] != "FAILURE"[0];
  }

  lemma WholeAck(l: Link, got: Bytes)
    requires got <= Replies(l)[5..]
    ensures |got| == 7 ==> (got == "SUCCESS" <==> Verdict(l))
  {
    WholeReply(l);
  }

  lemma WholeStream(l: Link)
    ensures Stream(l)[..|l.hello|] == Stream(l)[0..|l.hello|] == l.hello
    ensures Stream(l)[|l.hello|..|Stream(l)|] == l.data
    ensures Stream(l)[..45] == l.hello[..45] && Stream(l)[0..] == Stream(l)
  {
  }

  lemma SendHandshakeKeepsInv(l: Link, s: State, k: nat)
    requires ClientOk(l, s.client, s.clientUp) && Outward(l, s) && Inward(l, s)
    requires !ClientGone(s) && s.client.SendHandshake? && SendHandshakeStep(l, s, k).Some?
    ensures Outward(l, SendHandshakeStep(l, s, k).value) && Inward(l, SendHandshakeStep(l, s, k).value)
    ensures ClientOk(l, SendHandshakeStep(l, s, k).value.client, SendHandshakeStep(l, s, k).value.clientUp)
  {
    if CanSend(l, s.c2s, l.hello, s.client.sent, k) {
      WholeStream(l);
      Says(Stream(l), ServerHeard(l, s.server), s.c2s, l.cap, 0, l.hello, s.client.sent, k);
    }
  }

  lemma AwaitReadyKeepsInv(l: Link, s: State, k: nat)
    requires ClientOk(l, s.client, s.clientUp) && Outward(l, s) && Inward(l, s)
    requires !ClientGone(s) && s.client.AwaitReady? && AwaitReadyStep(l, s, k).Some?
    ensures Outward(l, AwaitReadyStep(l, s, k).value) && Inward(l, AwaitReadyStep(l, s, k).value)
    ensures ClientOk(l, AwaitReadyStep(l, s, k).value.client, AwaitReadyStep(l, s, k).value.clientUp)
  {
    if CanRecv(s.s2c, 5 - |s.client.got|, k) {
      WholeReply(l);
      Hears(Replies(l), 0, s.client.got, s.s2c, ServerSaid(s.server), l.cap, k);
    }
  }

  lemma SendDataKeepsInv(l: Link, s: State, k: nat)
    requires ClientOk(l, s.client, s.clientUp) && Outward(l, s) && Inward(l, s)
    requires !ClientGone(s) && s.client.SendData? && SendDataStep(l, s, k).Some?
    ensures Outward(l, SendDataStep(l, s, k).value) && Inward(l, SendDataStep(l, s, k).value)
    ensures ClientOk(l, SendDataStep(l, s, k).value.client, SendDataStep(l, s, k).value.clientUp)
  {
    if CanSend(l, s.c2s, l.data, s.client.sent, k) {
      WholeStream(l);
      Says(Stream(l), ServerHeard(l, s.server), s.c2s, l.cap, |l.hello|, l.data, s.client.sent, k);
    }
  }

  lemma AwaitAckKeepsInv(l: Link, s: State, k: nat)
    requires ClientOk(l, s.client, s.clientUp) && Outward(l, s) && Inward(l, s)
    requires !ClientGone(s) && s.client.AwaitAck? && AwaitAckStep(l, s, k).Some?
    ensures Outward(l, AwaitAckStep(l, s, k).value) && Inward(l, AwaitAckStep(l, s, k).value)
    ensures ClientOk(l, AwaitAckStep(l, s, k).value.client, AwaitAckStep(l, s, k).value.clientUp)
  {
    if CanRecv(s.s2c, 7 - |s.client.got|, k) {
      Hears(Replies(l), 5, s.client.got, s.s2c, ServerSaid(s.server), l.cap, k);
      WholeAck(l, s.client.got + s.s2c[..k]);
    }
  }

  lemma AwaitHandshakeKeepsInv(l: Link, s: State, k: nat)
    requires ServerOk(l, s.server, s.serverUp, s.queue, s.jobSize, s.job) && Outward(l, s) && Inward(l, s)
    requires !ServerGone(s) && s.server.AwaitHandshake? && AwaitHandshakeStep(l, s, k).Some?
    ensures Outward(l, AwaitHandshakeStep(l, s, k).value) && Inward(l, AwaitHandshakeStep(l, s, k).value)
    ensures var t := AwaitHandshakeStep(l, s, k).value; ServerOk(l, t.server, t.serverUp, t.queue, t.jobSize, t.job)
  {
    if CanRecv(s.c2s, 45 - |s.server.got|, k) {
      WholeStream(l);
      Hears(Stream(l), 0, s.server.got, s.c2s, ClientSaid(l, s.client), l.cap, k);
      var got := s.server.got + s.c2s[..k];
      assert |got| == 45 ==> got == l.hello[..45];
    }
  }

  lemma WholeJob(l: Link, got: Bytes)
    requires got <= Stream(l)[45..] && |got| == JobLength(l)
    ensures got == JobSeen(l) && 45 + JobLength(l) <= |Stream(l)|
  {
  }

  lemma SendReadyKeepsInv(l: Link, s: State, k: nat)
    requires ServerOk(l, s.server, s.serverUp, s.queue, s.jobSize, s.job) && Outward(l, s) && Inward(l, s)
    requires !ServerGone(s) && s.server.SendReady? && SendReadyStep(l, s, k).Some?
    ensures Outward(l, SendReadyStep(l, s, k).value) && Inward(l, SendReadyStep(l, s, k).value)
    ensures var t := SendReadyStep(l, s, k).value; ServerOk(l, t.server, t.serverUp, t.queue, t.jobSize, t.job)
  {
    var n := s.server.sent;
    if CanSend(l, s.s2c, "READY", n, k) {
      WholeReply(l);
      Says(Replies(l), ClientHeard(s.client), s.s2c, l.cap, 0, "READY", n, k);
      assert s.jobSize <= 0 ==> JobSeen(l) == [];
    }
  }

  lemma AwaitDataKeepsInv(l: Link, s: State, k: nat)
    requires ServerOk(l, s.server, s.serverUp, s.queue, s.jobSize, s.job) && Outward(l, s)
    requires !ServerGone(s) && s.server.AwaitData? && AwaitDataStep(l, s, k).Some?
    ensures Outward(l, AwaitDataStep(l, s, k).value)
    ensures var t := AwaitDataStep(l, s, k).value; ServerOk(l, t.server, t.serverUp, t.queue, t.jobSize, t.job)
  {
    if CanRecv(s.c2s, s.jobSize - |s.server.got|, k) {
      var got := s.server.got + s.c2s[..k];
      Hears(Stream(l), 45, s.server.got, s.c2s, ClientSaid(l, s.client), l.cap, k);
      if |got| == s.jobSize { WholeJob(l, got); }
    }
  }

  lemma SendAckKeepsInv(l: Link, s: State, k: nat)
    requires ServerOk(l, s.server, s.serverUp, s.queue, s.jobSize, s.job) && Outward(l, s) && Inward(l, s)
    requires !ServerGone(s) && s.server.SendAck? && SendAckStep(l, s, k).Some?
    ensures Outward(l, SendAckStep(l, s, k).value) && Inward(l, SendAckStep(l, s, k).value)
    ensures var t := SendAckStep(l, s, k).value; ServerOk(l, t.server, t.serverUp, t.queue, t.jobSize, t.job)
  {
    if CanSend(l, s.s2c, Ack(s.server.ok), s.server.sent, k) {
      WholeReply(l);
      Says(Replies(l), ClientHeard(s.client), s.s2c, l.cap, 5, Ack(s.server.ok), s.server.sent, k);
    }
  }

  lemma ClientKeepsInv(l: Link, s: State, k: nat)
    requires Inv(l, s) && ClientStep(l, s, k).Some?
    ensures Inv(l, ClientStep(l, s, k).value)
  {
    match s.client
    case SendHandshake(_) => SendHandshakeKeepsInv(l, s, k);
    case AwaitReady(_) => AwaitReadyKeepsInv(l, s, k);
    case SendData(_) => SendDataKeepsInv(l, s, k);
    case AwaitAck(_) => AwaitAckKeepsInv(l, s, k);
    case ClientDone(_) =>
  }

  lemma GreetedServerKeepsInv(l: Link, s: State, k: nat)
    requires Inv(l, s) && s.server.AwaitHandshake? && ServerStep(l, s, k).Some?
    ensures Inv(l, ServerStep(l, s, k).value)
  {
    AwaitHandshakeKeepsInv(l, s, k);
  }

  lemma ReadingServerKeepsInv(l: Link, s: State, k: nat)
    requires Inv(l, s) && s.server.AwaitData? && ServerStep(l, s, k).Some?
    ensures Inv(l, ServerStep(l, s, k).value)
  {
    AwaitDataKeepsInv(l, s, k);
  }

  lemma SpeakingServerKeepsInv(l: Link, s: State, k: nat)
    requires Inv(l, s) && (s.server.SendReady? || s.server.SendAck?) && ServerStep(l, s, k).Some?
    ensures Inv(l, ServerStep(l, s, k).value)
  {
    if s.server.SendReady? { SendReadyKeepsInv(l, s, k); } else { SendAckKeepsInv(l, s, k); }
  }

  /** Every send, recv, timeout and abort keeps the two programs in step. */
  lemma NextKeepsInv(l: Link, s: State, a: Action)
    requires Inv(l, s) && Next(l, s, a).Some?
    ensures Inv(l, Next(l, s, a).value)
  {
    match a
    case ClientMoves(k) => ClientKeepsInv(l, s, k);
    case ServerMoves(k) =>
      if s.server.AwaitHandshake? { GreetedServerKeepsInv(l, s, k); }
      else if s.server.AwaitData? { ReadingServerKeepsInv(l, s, k); }
      else { SpeakingServerKeepsInv(l, s, k); }
    case _ =>
  }

  lemma {:induction false} RunKeepsInv(l: Link, run: seq<Action>)
    requires Run(l, run).Some?
    ensures Inv(l, Run(l, run).value)
    decreases |run|
  {
    if run != [] {
      var before := run[..|run| - 1];
      RunKeepsInv(l, before);
      NextKeepsInv(l, Run(l, before).value, run[|run| - 1]);
    }
  }

  // -------------------------------------------------------------------- every run

  /** In every run, even one cut short by timeouts and lost connections, a client
      that has its verdict faces a server that has finished with the same verdict
      and holds, under the name and size it read in the first 45 bytes, the bytes
      that follow them; the verdict is true if and only if that job holds the message
      that makes the server ignore it or lp took it. */
  lemma VerdictIsTruth(l: Link, run: seq<Action>)
    requires Run(l, run).Some? && Run(l, run).value.client.ClientDone?
    ensures var s := Run(l, run).value;
            && s.server == ServerDone(s.client.ok) && l.sizeOk
            && Parse(l.hello[..45]) == Job(s.queue, s.jobSize)
            && |s.job| == (if s.jobSize > 0 then s.jobSize else 0)
            && s.job <= (l.hello + l.data)[45..]
            && (s.client.ok <==>
                  (exists i :: 0 <= i <= |s.job| - 14 && s.job[i..][..14] == "Cannot get TTY") || l.lpOk)
  {
    RunKeepsInv(l, run);
    IgnoredExactly(Run(l, run).value.job);
  }

  /** What a party has received of its current message is a prefix of it. */
  lemma MessagesArriveInOrder(l: Link, run: seq<Action>)
    requires Run(l, run).Some?
    ensures var s := Run(l, run).value;
            && (s.client.AwaitReady? ==> s.client.got <= "READY")
            && (s.client.AwaitAck? ==> s.client.got <= "SUCCESS" || s.client.got <= "FAILURE")
            && (s.server.AwaitHandshake? ==> s.server.got <= l.hello[..45])
            && (s.server.AwaitData? ==> s.server.got <= (l.hello + l.data)[45..])
  {
    RunKeepsInv(l, run);
  }

  /** Work left: the bytes still to be sent and to be received on either side, and
      the parties still up. */
  function Work(l: Link, s: State): int {
    2 * |Stream(l)| + 24 - ClientSaid(l, s.client) - ServerHeard(l, s.server) - ServerSaid(s.server)
      - ClientHeard(s.client) + (if s.clientUp then 1 else 0) + (if s.serverUp then 1 else 0)
  }

  lemma SendHandshakeDoesWork(l: Link, s: State, k: nat)
    requires !ClientGone(s) && s.client.SendHandshake? && SendHandshakeStep(l, s, k).Some?
    ensures Work(l, SendHandshakeStep(l, s, k).value) < Work(l, s)
  {
  }

  lemma AwaitReadyDoesWork(l: Link, s: State, k: nat)
    requires !ClientGone(s) && s.client.AwaitReady? && AwaitReadyStep(l, s, k).Some?
    ensures Work(l, AwaitReadyStep(l, s, k).value) < Work(l, s)
  {
  }

  lemma SendDataDoesWork(l: Link, s: State, k: nat)
    requires !ClientGone(s) && s.client.SendData? && SendDataStep(l, s, k).Some?
    ensures Work(l, SendDataStep(l, s, k).value) < Work(l, s)
  {
  }

  lemma AwaitAckDoesWork(l: Link, s: State, k: nat)
    requires !ClientGone(s) && s.client.AwaitAck? && AwaitAckStep(l, s, k).Some?
    ensures Work(l, AwaitAckStep(l, s, k).value) < Work(l, s)
  {
  }

  lemma AwaitHandshakeDoesWork(l: Link, s: State, k: nat)
    requires !ServerGone(s) && s.server.AwaitHandshake? && AwaitHandshakeStep(l, s, k).Some?
    ensures Work(l, AwaitHandshakeStep(l, s, k).value) < Work(l, s)
  {
  }

  lemma SendReadyDoesWork(l: Link, s: State, k: nat)
    requires !ServerGone(s) && s.server.SendReady? && SendReadyStep(l, s, k).Some?
    ensures Work(l, SendReadyStep(l, s, k).value) < Work(l, s)
  {
  }

  lemma AwaitDataDoesWork(l: Link, s: State, k: nat)
    requires !ServerGone(s) && s.server.AwaitData? && AwaitDataStep(l, s, k).Some?
    requires Announced(l) == Job(s.queue, s.jobSize)
    ensures Work(l, AwaitDataStep(l, s, k).value) < Work(l, s)
  {
  }

  lemma SendAckDoesWork(l: Link, s: State, k: nat)
    requires !ServerGone(s) && s.server.SendAck? && SendAckStep(l, s, k).Some?
    ensures Work(l, SendAckStep(l, s, k).value) < Work(l, s)
  {
  }

  lemma ClientDoesWork(l: Link, s: State, k: nat)
    requires ClientStep(l, s, k).Some?
    ensures Work(l, ClientStep(l, s, k).value) < Work(l, s)
  {
    match s.client
    case SendHandshake(_) => SendHandshakeDoesWork(l, s, k);
    case AwaitReady(_) => AwaitReadyDoesWork(l, s, k);
    case SendData(_) => SendDataDoesWork(l, s, k);
    case AwaitAck(_) => AwaitAckDoesWork(l, s, k);
    case ClientDone(_) =>
  }

  lemma ServerDoesWork(l: Link, s: State, k: nat)
    requires Inv(l, s) && ServerStep(l, s, k).Some?
    ensures Work(l, ServerStep(l, s, k).value) < Work(l, s)
  {
    match s.server
    case AwaitHandshake(_) => AwaitHandshakeDoesWork(l, s, k);
    case SendReady(_) => SendReadyDoesWork(l, s, k);
    case AwaitData(_) => AwaitDataDoesWork(l, s, k);
    case SendAck(_, _) => SendAckDoesWork(l, s, k);
    case ServerDone(_) =>
  }

  /** Every step strictly decreases the bytes and phases left. */
  lemma NextDoesWork(l: Link, s: State, a: Action)
    requires Inv(l, s) && Next(l, s, a).Some?
    ensures 0 <= Work(l, Next(l, s, a).value) < Work(l, s)
  {
    NextKeepsInv(l, s, a);
    match a
    case ClientMoves(k) => ClientDoesWork(l, s, k);
    case ServerMoves(k) => ServerDoesWork(l, s, k);
    case _ =>
  }

  /** Every run is finite, with a bound known beforehand: each byte is
      sent and received once, and each party may fail once. */
  lemma RunsEnd(l: Link, run: seq<Action>)
    requires Run(l, run).Some?
    ensures |run| <= 2 * |l.hello| + 2 * |l.data| + 26
  {
    RunsUseUpWork(l, run);
    RunKeepsInv(l, run);
  }

  lemma {:induction false} RunsUseUpWork(l: Link, run: seq<Action>)
    requires Run(l, run).Some?
    ensures |run| + Work(l, Run(l, run).value) <= 2 * |l.hello| + 2 * |l.data| + 26
    decreases |run|
  {
    if run != [] {
      var before := run[..|run| - 1];
      RunsUseUpWork(l, before);
      RunKeepsInv(l, before);
      NextDoesWork(l, Run(l, before).value, run[|run| - 1]);
    }
  }
}
