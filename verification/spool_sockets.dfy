/** The two programs as they are written: loops over a socket whose recv and send
    move as many bytes as they please, and phase-by-phase updates of their fields. */
module SpoolSockets {
  import opened Wrappers

  import opened SpoolCodec
  import opened SpoolProtocol

  /** One party's end of the connection: the bytes the peer sends before it closes
      its side, and the bytes sent so far. */
  class Socket {
    var incoming: Bytes
    var outgoing: Bytes

    method Recv(n: nat) returns (frag: Bytes)
      requires n > 0
      modifies this`incoming
      ensures |frag| <= n && frag + incoming == old(incoming)
      ensures frag == [] <==> old(incoming) == []
    {
      if incoming == [] {
        return [];
      }
      var k :| 1 <= k <= n && k <= |incoming|;
      frag, incoming := incoming[..k], incoming[k..];
    }

    method Send(msg: Bytes) returns (sent: nat)
      requires msg != []
      modifies this`outgoing
      ensures 1 <= sent <= |msg| && outgoing == old(outgoing) + msg[..sent]
    {
      sent :| 1 <= sent <= |msg|;
      outgoing := outgoing + msg[..sent];
    }

    /** _recv_fixed_msg: exactly the next n bytes, however they were cut up, or an
        exception if the stream ends first. */
    method RecvFixedMsg(n: int) returns (r: Option<Bytes>)
      modifies this`incoming
      ensures n <= 0 ==> r == Some([]) && incoming == old(incoming)
      ensures 0 < n <= |old(incoming)| ==> r == Some(old(incoming)[..n]) && incoming == old(incoming)[n..]
      ensures n > |old(incoming)| ==> r == None && incoming == []
    {
      var bytesRemaining := n;
      var msg: Bytes := [];
      while bytesRemaining > 0
        invariant msg + incoming == old(incoming)
        invariant bytesRemaining == n - |msg|
        invariant bytesRemaining >= 0 || msg == []
      {
        var frag := Recv(bytesRemaining);
        if frag == [] {
          return None;
        }
        bytesRemaining := bytesRemaining - |frag|;
        msg := msg + frag;
      }
      return Some(msg);
    }

    /** _send_fixed_msg: the whole message, in order, once. */
    method SendFixedMsg(msg: Bytes)
      modifies this`outgoing
      ensures outgoing == old(outgoing) + msg
    {
      var totalSent := 0;
      while totalSent < |msg|
        invariant totalSent <= |msg|
        invariant outgoing == old(outgoing) + msg[..totalSent]
      {
        var sent := Send(msg[totalSent..]);
        assert msg[..totalSent] + msg[totalSent..][..sent] == msg[..totalSent + sent];
        totalSent := totalSent + sent;
      }
    }
  }

  /** A party's whole session: its verdict (None for an exception) and all it sent. */
  datatype Session = Session(verdict: Option<bool>, sent: Bytes)

  /** The server after it has understood a handshake, from the bytes that follow. */
  function Answer(size: int, rest: Bytes, lpOk: bool): Session {
    var n := if size > 0 then size else 0;
    if |rest| < n then Session(None, "READY")
    else
      var ok := Ignored(rest[..n]) || lpOk;
      Session(Some(ok), "READY" + Ack(ok))
  }

  /** What the server makes of the bytes it is sent. */
  function Serve(incoming: Bytes, lpOk: bool): Session {
    if |incoming| < 45 || !Parse(incoming[..45]).Job? then Session(None, [])
    else Answer(Parse(incoming[..45]).size, incoming[45..], lpOk)
  }

  /** find(): the first place where t stands in s, or -1. */
  method Find(s: Bytes, t: Bytes) returns (at: int)
    ensures at == -1 || (StandsAt(s, t, at) && forall i :: 0 <= i < at ==> !StandsAt(s, t, i))
    ensures at == -1 ==> forall i :: 0 <= i <= |s| ==> !StandsAt(s, t, i)
  {
    at := 0;
    while at + |t| <= |s|
      invariant 0 <= at
      invariant forall i :: 0 <= i < at ==> !StandsAt(s, t, i)
    {
      if s[at..at + |t|] == t {
        return;
      }
      at := at + 1;
    }
    at := -1;
  }

  /** _should_ignore_job */
  method ShouldIgnoreJob(job: Bytes) returns (r: bool)
    ensures r <==> exists i :: 0 <= i <= |job| - 14 && job[i..][..14] == "Cannot get TTY"
  {
    var at := Find(job, "Cannot get TTY");
    if at != -1 {
      assert job[at..][..14] == "Cannot get TTY";
    } else {
      forall i | 0 <= i <= |job| - 14 ensures job[i..][..14] != "Cannot get TTY" {
        assert !StandsAt(job, "Cannot get TTY", i);
      }
    }
    return at != -1;
  }

  lemma HandshakeFields(all: Bytes)
    requires |all| >= 45
    ensures all[..45][..5] == all[..5] && all[..45][5..35] == all[5..35] && all[..45][35..45] == all[35..45]
    ensures Parse(all[..45]).Job? <==>
              all[..5] == "SPOOL" && exists v :: v != 0 && IsNumber(Strip(all[35..45]), v)
    ensures Parse(all[..45]).Job? ==> IsNumber(Strip(all[35..45]), Parse(all[..45]).size)
  {
    var msg := all[..45];
    assert msg[..5] == all[..5] && msg[5..35] == all[5..35] && msg[35..45] == all[35..45];
    ParseExactly(msg, if Parse(msg).Job? then Parse(msg).size else 0);
    forall v | v != 0 && IsNumber(Strip(all[35..45]), v) && all[..5] == "SPOOL" ensures Parse(msg).Job? {
      ParseExactly(msg, v);
    }
  }

  class ServerThread {
    var queuename: Bytes
    var jobsize: int
    var jobdata: Bytes

    /** Accepted are the magic word and a number that is not zero. */
    method ExpectHandshake(sock: Socket) returns (ok: bool)
      modifies this, sock`incoming
      ensures var all := old(sock.incoming);
              ok <==> |all| >= 45 && all[..5] == "SPOOL" && exists v :: v != 0 && IsNumber(Strip(all[35..45]), v)
      ensures ok ==> IsNumber(Strip(old(sock.incoming)[35..45]), jobsize)
      ensures ok ==> queuename == Strip(old(sock.incoming)[5..35])
      ensures var all := old(sock.incoming);
              && ok == (|all| >= 45 && Parse(all[..45]).Job?)
              && (ok ==> Parse(all[..45]) == Job(queuename, jobsize) && sock.incoming == all[45..])
    {
      ghost var all := sock.incoming;
      var msg := sock.RecvFixedMsg(45);
      if msg.None? {
        return false;
      }
      var p := Parse(msg.value);
      HandshakeFields(all);
      if !p.Job? {
        return false;
      }
      queuename, jobsize := p.queue, p.size;
      return true;
    }

    /** The rest of run(), once the handshake has been accepted: the job is read in
        full or there is no verdict, and SUCCESS is sent exactly for a job that holds
        the message or that lp has taken. */
    method ServeJob(sock: Socket, lpOk: bool) returns (verdict: Option<bool>)
      modifies this`jobdata, sock
      ensures verdict.Some? <==> |old(sock.incoming)| >= jobsize
      ensures verdict.Some? ==>
                (verdict.value <==>
                   (exists i :: 0 <= i <= |jobdata| - 14 && jobdata[i..][..14] == "Cannot get TTY") || lpOk)
      ensures sock.outgoing
           == old(sock.outgoing) + if verdict == None then "READY"
                                   else if verdict.value then "READYSUCCESS" else "READYFAILURE"
      ensures var rest := old(sock.incoming);
              && verdict == Answer(jobsize, rest, lpOk).verdict
              && sock.outgoing == old(sock.outgoing) + Answer(jobsize, rest, lpOk).sent
              && (verdict.Some? ==> jobdata == rest[..if jobsize > 0 then jobsize else 0])
    {
      ghost var rest := sock.incoming;
      sock.SendFixedMsg("READY");
      var data := sock.RecvFixedMsg(jobsize);
      if data.None? {
        return None;
      }
      jobdata := data.value;
      assert jobdata == rest[..if jobsize > 0 then jobsize else 0];
      var statusOk := ShouldIgnoreJob(jobdata);
      if !statusOk {
        statusOk := lpOk;
      }
      IgnoredExactly(jobdata);
      sock.SendFixedMsg(Ack(statusOk));
      return Some(statusOk);
    }

    /** run(): the verdict acknowledged to the client, or None on an exception; with
        a verdict the fields hold the announced job, byte for byte. */
    method RunSession(sock: Socket, lpOk: bool) returns (verdict: Option<bool>)
      modifies this, sock
      ensures verdict.Some? ==>
                (verdict.value <==>
                   (exists i :: 0 <= i <= |jobdata| - 14 && jobdata[i..][..14] == "Cannot get TTY") || lpOk)
      ensures var all := old(sock.incoming);
              && verdict == Serve(all, lpOk).verdict
              && sock.outgoing == old(sock.outgoing) + Serve(all, lpOk).sent
              && (verdict.Some? ==>
                    && Parse(all[..45]) == Job(queuename, jobsize)
                    && jobdata == all[45..][..if jobsize > 0 then jobsize else 0])
    {
      var ok := ExpectHandshake(sock);
      if !ok {
        return None;
      }
      verdict := ServeJob(sock, lpOk);
    }
  }

  /** What a client with these messages makes of the bytes it is sent; sizeOk says
      that the file still has the announced size. */
  function Converse(hello: Bytes, data: Bytes, sizeOk: bool, incoming: Bytes): Session {
    if |incoming| < 5 || incoming[..5] != "READY" || !sizeOk then Session(None, hello)
    else if |incoming| < 12 then Session(None, hello + data)
    else Session(Some(incoming[5..12] == "SUCCESS"), hello + data)
  }

  function Spool(u: Setup, incoming: Bytes): Session {
    Converse(Hello(u), Data(u), |Data(u)| == u.statSize, incoming)
  }

  method ExpectHandshakeReply(sock: Socket) returns (ok: bool)
    modifies sock`incoming
    ensures var all := old(sock.incoming);
            ok == (|all| >= 5 && all[..5] == "READY") && (ok ==> sock.incoming == all[5..])
  {
    var reply := sock.RecvFixedMsg(5);
    return reply.Some? && reply.value == "READY";
  }

  method ExpectJobAck(sock: Socket) returns (verdict: Option<bool>)
    modifies sock`incoming
    ensures var all := old(sock.incoming);
            verdict == if |all| >= 7 then Some(all[..7] == "SUCCESS") else None
  {
    var ack := sock.RecvFixedMsg(7);
    return if ack.Some? then Some(ack.value == "SUCCESS") else None;
  }

  /** spool_socket(): send_handshake, expect_handshake_reply, send_job_data and
      expect_job_ack. */
  method SpoolSocket(hello: Bytes, data: Bytes, sizeOk: bool, sock: Socket) returns (verdict: Option<bool>)
    modifies sock
    ensures var all := old(sock.incoming);
            && (verdict.Some? <==> |all| >= 12 && all[..5] == "READY" && sizeOk)
            && (verdict.Some? ==> (verdict.value <==> all[5..12] == "SUCCESS"))
            && sock.outgoing == old(sock.outgoing) + hello
                                + if |all| >= 5 && all[..5] == "READY" && sizeOk then data else []
    ensures verdict == Converse(hello, data, sizeOk, old(sock.incoming)).verdict
    ensures sock.outgoing == old(sock.outgoing) + Converse(hello, data, sizeOk, old(sock.incoming)).sent
  {
    ghost var all := sock.incoming;
    sock.SendFixedMsg(hello);
    var ready := ExpectHandshakeReply(sock);
    if !ready || !sizeOk {
      return None;
    }
    sock.SendFixedMsg(data);
    assert |all| >= 12 ==> all[5..][..7] == all[5..12];
    verdict := ExpectJobAck(sock);
  }

  method SpoolFile(u: Setup, sock: Socket) returns (verdict: Option<bool>)
    modifies sock
    ensures verdict == Spool(u, old(sock.incoming)).verdict
    ensures sock.outgoing == old(sock.outgoing) + Spool(u, old(sock.incoming)).sent
  {
    var data := Data(u);
    verdict := SpoolSocket(Hello(u), data, |data| == u.statSize, sock);
  }

  lemma ServerAnswers(l: Link)
    requires Announced(l).Job? && 45 + JobLength(l) <= |Stream(l)|
    ensures Serve(Stream(l), l.lpOk) == Session(Some(Verdict(l)), "READY" + Ack(Verdict(l)))
  {
    assert Stream(l)[..45] == l.hello[..45];
    assert Stream(l)[45..][..JobLength(l)] == JobSeen(l);
  }

  lemma ClientUnderstands(l: Link, ok: bool)
    requires l.sizeOk
    ensures Converse(l.hello, l.data, true, "READY" + Ack(ok)) == Session(Some(ok), Stream(l))
  {
    var replies := "READY" + Ack(ok);
    assert replies[..5] == "READY" && replies[5..12] == Ack(ok);
    assert "SUCCESS"[0] != "FAILURE"[0];
  }

  /** The two programs connected, each fed what the other sends, reach the same
      verdict whenever the first 45 bytes are understood and as many bytes follow
      as they announce. */
  lemma ProgramsCompose(l: Link)
    requires l.sizeOk && Announced(l).Job? && 45 + JobLength(l) <= |Stream(l)|
    ensures var server := Serve(Stream(l), l.lpOk);
            var client := Converse(l.hello, l.data, l.sizeOk, server.sent);
            client.sent == Stream(l) && server.verdict == client.verdict == Some(Verdict(l))
  {
    ServerAnswers(l);
    ClientUnderstands(l, Verdict(l));
  }

  /** The loops and the step-by-step protocol agree: a verdict the protocol gives
      the client, in any run, is the one both programs reach when fed what the
      other sends. */
  lemma ProgramsMatchProtocol(l: Link, run: seq<Action>)
    requires Run(l, run).Some? && Run(l, run).value.client.ClientDone?
    ensures var server := Serve(l.hello + l.data, l.lpOk);
            && server.verdict == Some(Run(l, run).value.client.ok)
            && Converse(l.hello, l.data, l.sizeOk, server.sent)
               == Session(Some(Run(l, run).value.client.ok), l.hello + l.data)
  {
    RunKeepsInv(l, run);
    ProgramsCompose(l);
  }
}
