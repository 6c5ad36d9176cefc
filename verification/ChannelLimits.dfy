/** Where reliable delivery ends: the runs that break it. Each starts with a tunnel that is
    asked for and granted, so that both sides know the other's identifier; message bodies
    are arbitrary. */
module ChannelLimits {
  import opened Words
  import opened Endpoint
  import opened Channel

  lemma Extended(run: seq<Step>, step: Step, c: Setup) returns (longer: seq<Step>)
    requires Legal(run, c) && Enabled(Actor(Final(run, c), step), step.action)
    ensures Legal(longer, c) && Final(longer, c) == Next(Final(run, c), step, c)
  {
    longer := run + [step];
    assert longer[..|run|] == run;
  }

  predicate IsMessage(body: seq<byte>) {
    IsBody(body) && !IsStop(body)
  }

  predicate Usable(c: Setup) {
    c.maxRetries > 0 && c.tidA != 0 && c.tidB != 0
  }

  function Pkt(ns: u16, nr: u16, tid: u16, cid: u16, body: seq<byte>): Packet {
    Packet(Header(CONTROL_VER, Wrap(CONTROL_HDR_SIZE + |body|), tid, cid, ns, nr), body)
  }

  const UP := CallView(false, false, true, 0, 0)
  const NO_CALL := CallView(false, false, false, 0, 0)

  // ----- the effects of single actions -----

  lemma SendEffect(n: Node, cid: u16, body: seq<byte>, maxRetries: nat)
    requires n.alive && n.born && IsMessage(body) && n.t.cLr <= n.t.seqNum && maxRetries > 0
    ensures Enabled(n, Send(cid, body))
    ensures var p := Pkt(n.t.seqNum, n.t.recSeqNum, Wrap(n.t.tid), cid, body);
            Act(n, Send(cid, body), maxRetries) ==
              Effect(n.(t := n.t.(seqNum := Wrap(n.t.seqNum + 1)), sent := n.sent + [body],
                        queue := n.queue + [Queued(p, 1)]), {p})
  {
  }

  function TakeIt(p: Packet, call: CallView, newTid: int, ack: bool): Action {
    Receive(p, call, UP, newTid, ack)
  }

  /** The next message, on the tunnel itself or on a call. */
  lemma TakeEffect(n: Node, p: Packet, call: CallView, newTid: int, ack: bool, maxRetries: nat)
    requires n.alive && Routed(n, p) && WellFormed(p) && p.body != [] && p.header.ns == n.t.recSeqNum
    requires !n.self.needClose && !n.self.closing && n.self.closeSs == 0 && n.self.cid == 0
    ensures Enabled(n, TakeIt(p, call, newTid, ack))
    ensures var t := n.t.(recSeqNum := Wrap(n.t.recSeqNum + 1), cLr := p.header.nr, tid := newTid);
            var self, cid := if p.header.cid == 0 then UP else n.self, if p.header.cid == 0 then 0 else call.cid;
            Act(n, TakeIt(p, call, newTid, ack), maxRetries) ==
              Effect(n.(born := true, t := t, log := n.log + [Took(p.body)], self := self),
                     if ack then {Pkt(t.seqNum, t.recSeqNum, Wrap(newTid), cid, [])} else {})
  {
    hide IsStop, IsBody, Xmit;
  }

  lemma StaleEffect(n: Node, p: Packet, maxRetries: nat)
    requires n.alive && Routed(n, p) && WellFormed(p) && p.body != [] && p.header.cid == 0
    requires p.header.ns < n.t.recSeqNum <= 3 && n.self == UP && n.born
    ensures Enabled(n, TakeIt(p, NO_CALL, 0, false))
    ensures Act(n, TakeIt(p, NO_CALL, 0, false), maxRetries) ==
              Effect(n, {Pkt(n.t.seqNum, n.t.recSeqNum, Wrap(n.t.tid), 0, [])})
  {
    hide IsStop, IsBody, Xmit;
    var z := Numbered(n.t, 0, []);
    assert Replies(n, [z]) == {z};
  }

  lemma ZlbEffect(n: Node, p: Packet, maxRetries: nat)
    requires n.alive && n.born && Routed(n, p) && WellFormed(p) && p.body == [] && p.header.cid == 0
    requires p.header.ns == n.t.recSeqNum && n.self == UP
    ensures Enabled(n, TakeIt(p, NO_CALL, 0, false))
    ensures Act(n, TakeIt(p, NO_CALL, 0, false), maxRetries) ==
              Effect(n.(t := n.t.(cLr := p.header.nr), self := UP.(cnu := false)), {})
  {
    hide IsStop, IsBody, Xmit;
  }

  lemma SkipEffect(n: Node, p: Packet, maxRetries: nat)
    requires n.alive && n.born && Routed(n, p) && WellFormed(p) && p.body == [] && p.header.cid != 0
    requires p.header.ns == n.t.recSeqNum && n.self == UP
    ensures Enabled(n, ReceiveUnknownCall(p))
    ensures Act(n, ReceiveUnknownCall(p), maxRetries) ==
              Effect(n.(t := n.t.(recSeqNum := Wrap(n.t.recSeqNum + 1), cLr := p.header.nr),
                        log := n.log + [Skipped]), {})
  {
    hide IsStop, IsBody, Xmit;
  }

  lemma TossEffect(n: Node, k: nat, stop: seq<byte>, maxRetries: nat)
    requires n.alive && n.born && k < |n.queue| && n.queue[k].packet.header.ns < n.t.cLr && IsBody(stop) && IsStop(stop)
    ensures Enabled(n, Timer(k, stop))
    ensures Act(n, Timer(k, stop), maxRetries) == Effect(n.(queue := n.queue[..k] + n.queue[k + 1..]), {})
  {
  }

  lemma CloseEffect(n: Node, stop: seq<byte>, maxRetries: nat)
    requires n.alive && n.born && n.self == UP && n.t.cLr <= n.t.seqNum && maxRetries > 0 && IsBody(stop)
             && IsStop(stop)
    ensures Enabled(n, Close(stop))
    ensures var p := Pkt(n.t.seqNum, n.t.recSeqNum, Wrap(n.t.tid), 0, stop);
            Act(n, Close(stop), maxRetries) ==
              Effect(n.(t := n.t.(seqNum := Wrap(n.t.seqNum + 1)), sent := n.sent + [stop], queue := [Queued(p, 1)],
                        self := CallView(true, true, true, n.t.seqNum, 0)), {p})
  {
  }

  // ----- a tunnel that is up -----

  predicate IsUp(n: Node, ourtid: u16, t: TunnelView, sent: seq<seq<byte>>, log: seq<Slot>) {
    n.alive && n.born && n.ourtid == ourtid && n.t == t && n.sent == sent && n.log == log
  }

  /** The tunnel was asked for with `m0`. */
  predicate Asked(s: System, c: Setup, m0: seq<byte>) {
    && IsUp(s.a, c.tidA, TunnelView(1, 0, 0, 0), [m0], []) && s.a.self == NO_CALL
    && IsUp(s.b, c.tidB, TunnelView(0, 1, 0, c.tidA), [], [Took(m0)]) && s.b.self == UP && s.b.queue == []
  }

  lemma AskedRun(c: Setup, m0: seq<byte>) returns (run: seq<Step>)
    requires Usable(c) && IsMessage(m0)
    ensures Legal(run, c) && Asked(Final(run, c), c, m0)
  {
    hide Act, Enabled, Legal, Final;
    var p0 := Pkt(0, 0, 0, 0, m0);
    run := FirstSent(c, m0);
    TakeEffect(Final(run, c).b, p0, NO_CALL, c.tidA, false, c.maxRetries);
    run := Extended(run, Step(false, TakeIt(p0, NO_CALL, c.tidA, false)), c);
  }

  lemma FirstSent(c: Setup, m0: seq<byte>) returns (run: seq<Step>)
    requires Usable(c) && IsMessage(m0)
    ensures Legal(run, c)
    ensures var p0 := Pkt(0, 0, 0, 0, m0);
            Final(run, c) == System(
              InitNode(c.tidA, true).(t := TunnelView(1, 0, 0, 0), queue := [Queued(p0, 1)], sent := [m0]),
              InitNode(c.tidB, false).(inbox := {p0}))
  {
    run := [];
    SendEffect(Init(c).a, 0, m0, c.maxRetries);
    hide Act, Enabled;
    run := Extended(run, Step(true, Send(0, m0)), c);
  }

  /** It was granted with `m1`. */
  predicate Open(s: System, c: Setup, m0: seq<byte>, m1: seq<byte>) {
    && IsUp(s.a, c.tidA, TunnelView(1, 1, 1, c.tidB), [m0], [Took(m1)]) && s.a.self == UP
    && IsUp(s.b, c.tidB, TunnelView(1, 1, 0, c.tidA), [m1], [Took(m0)]) && s.b.self == UP
    && |s.b.queue| == 1 && s.b.queue[0].packet.header.ns == 0
  }

  lemma OpenRun(c: Setup, m0: seq<byte>, m1: seq<byte>) returns (run: seq<Step>)
    requires Usable(c) && IsMessage(m0) && IsMessage(m1)
    ensures Legal(run, c) && Open(Final(run, c), c, m0, m1)
  {
    hide Act, Enabled, Legal, Final;
    var p1 := Pkt(0, 1, c.tidA, 0, m1);
    run := AskedRun(c, m0);
    SendEffect(Final(run, c).b, 0, m1, c.maxRetries);
    run := Extended(run, Step(false, Send(0, m1)), c);
    TakeEffect(Final(run, c).a, p1, NO_CALL, c.tidB, false, c.maxRetries);
    run := Extended(run, Step(true, TakeIt(p1, NO_CALL, c.tidB, false)), c);
  }

  // ----- a number used up loses a message -----

  /** After a message on a call whose acknowledgement finds the call `k` gone. */
  predicate UsedUp(s: System, c: Setup) {
    && s.a.alive && s.a.born && s.a.ourtid == c.tidA && s.a.self == UP && s.a.t == TunnelView(2, 2, 2, c.tidB)
    && |s.a.log| == 2 && s.a.log[1] == Skipped
    && s.b.alive && s.b.born && s.b.ourtid == c.tidB && s.b.self == UP && s.b.t == TunnelView(1, 2, 1, c.tidA)
    && |s.b.sent| == 1 && |s.b.queue| == 1 && s.b.queue[0].packet.header.ns == 0
  }

  lemma UsedUpRun(c: Setup, m0: seq<byte>, m1: seq<byte>, m2: seq<byte>, o: u16, k: u16) returns (run: seq<Step>)
    requires Usable(c) && IsMessage(m0) && IsMessage(m1) && IsMessage(m2) && o != 0 && k != 0
    ensures Legal(run, c) && UsedUp(Final(run, c), c)
  {
    hide Act, Enabled, Legal, Final;
    run := OpenRun(c, m0, m1);
    var p2, z := Pkt(1, 1, c.tidB, o, m2), Pkt(1, 2, c.tidA, k, []);
    SendEffect(Final(run, c).a, o, m2, c.maxRetries);
    run := Extended(run, Step(true, Send(o, m2)), c);
    TakeEffect(Final(run, c).b, p2, NO_CALL.(cid := k), c.tidA, true, c.maxRetries);
    run := Extended(run, Step(false, TakeIt(p2, NO_CALL.(cid := k), c.tidA, true)), c);
    SkipEffect(Final(run, c).a, z, c.maxRetries);
    run := Extended(run, Step(true, ReceiveUnknownCall(z)), c);
  }

  /** A numbered message that nobody will ever deliver: its number is used up at the peer,
      and it is queued no more. */
  predicate Lost(s: Node, r: Node, i: nat) {
    && s.alive && !s.self.needClose && !s.self.closing && i < |s.sent| && i < |r.log| && r.log[i] == Skipped
    && forall q <- s.queue :: q.packet.header.ns != i
  }

  /** A zero-length body for a call that is gone uses up a number; the next message is then
      refused as a duplicate, acknowledged and tossed. */
  lemma SkippedNumberLosesMessage(c: Setup, m0: seq<byte>, m1: seq<byte>, m2: seq<byte>, m3: seq<byte>, o: u16, k: u16,
                                  stop: seq<byte>)
    returns (run: seq<Step>)
    requires Usable(c) && IsMessage(m0) && IsMessage(m1) && IsMessage(m2) && IsMessage(m3) && o != 0 && k != 0
    requires IsBody(stop) && IsStop(stop)
    ensures Legal(run, c)
    ensures var s := Final(run, c); Lost(s.b, s.a, 1) && s.b.sent[1] == m3
  {
    hide Act, Enabled, Legal, Final;
    run := UsedUpRun(c, m0, m1, m2, o, k);
    var p3, z := Pkt(1, 2, c.tidA, 0, m3), Pkt(2, 2, c.tidB, 0, []);
    SendEffect(Final(run, c).b, 0, m3, c.maxRetries);
    run := Extended(run, Step(false, Send(0, m3)), c);
    StaleEffect(Final(run, c).a, p3, c.maxRetries);
    run := Extended(run, Step(true, TakeIt(p3, NO_CALL, 0, false)), c);
    ZlbEffect(Final(run, c).b, z, c.maxRetries);
    run := Extended(run, Step(false, TakeIt(z, NO_CALL, 0, false)), c);
    TossEffect(Final(run, c).b, 1, stop, c.maxRetries);
    run := Extended(run, Step(false, Timer(1, stop)), c);
  }

  // ----- a close confirmed too early -----

  /** A second message of the asking side has been accepted and acknowledged. */
  predicate Acked(s: System, c: Setup, m0: seq<byte>, m2: seq<byte>) {
    && s.a.alive && s.a.born && s.a.ourtid == c.tidA && s.a.self == UP && s.a.t == TunnelView(2, 1, 1, c.tidB)
    && s.a.sent == [m0, m2] && Pkt(1, 2, c.tidA, 0, []) in s.a.inbox && |s.a.log| == 1
    && s.b.log == [Took(m0), Took(m2)]
  }

  lemma AckedRun(c: Setup, m0: seq<byte>, m1: seq<byte>, m2: seq<byte>) returns (run: seq<Step>)
    requires Usable(c) && IsMessage(m0) && IsMessage(m1) && IsMessage(m2)
    ensures Legal(run, c) && Acked(Final(run, c), c, m0, m2)
  {
    hide Act, Enabled, Legal, Final;
    run := OpenRun(c, m0, m1);
    var p2 := Pkt(1, 1, c.tidB, 0, m2);
    SendEffect(Final(run, c).a, 0, m2, c.maxRetries);
    run := Extended(run, Step(true, Send(0, m2)), c);
    TakeEffect(Final(run, c).b, p2, NO_CALL, c.tidA, true, c.maxRetries);
    run := Extended(run, Step(false, TakeIt(p2, NO_CALL, c.tidA, true)), c);
  }

  /** A StopCCN counts as acknowledged although the peer never accepted it: the
      acknowledgement of the message before it is enough. */
  lemma CloseConfirmedUnreceived(c: Setup, m0: seq<byte>, m1: seq<byte>, m2: seq<byte>, stop: seq<byte>)
    returns (run: seq<Step>, p: Packet)
    requires Usable(c) && IsMessage(m0) && IsMessage(m1) && IsMessage(m2) && IsBody(stop) && IsStop(stop)
    ensures Confirms(run, c, true, p)
    ensures var s := Final(run, c);
            && p.header.nr == s.a.self.closeSs == |s.b.log| && NoSkips(s.b.log)
            && s.a.self.closeSs == 2 && s.a.sent == [m0, m2, stop]
  {
    hide Act, Enabled, Legal, Final, IsStop, Handle;
    run := AckedRun(c, m0, m1, m2);
    p := Pkt(1, 2, c.tidA, 0, []);
    CloseEffect(Final(run, c).a, stop, c.maxRetries);
    run := Extended(run, Step(true, Close(stop)), c);
    AckCloses(TunnelView(3, 1, 1, c.tidB), p);
  }

  lemma AckCloses(t: TunnelView, p: Packet)
    requires t.recSeqNum == 1 && p.header == Pkt(1, 2, p.header.tid, 0, []).header && p.body == []
    ensures !Handle(t, CallView(true, true, true, 2, 0), p).c.needClose
  {
  }

  /** Every confirmation whose acknowledgement goes `d` past the closing message means that
      the peer accepted it. */
  ghost predicate MeansAccepted(d: nat) {
    forall run: seq<Step>, c: Setup, byA: bool, p: Packet :: Confirms(run, c, byA, p) ==>
      AcceptedAtDistance(Me(Final(run, c), byA), Me(Final(run, c), !byA), p, d)
  }

  predicate AcceptedAtDistance(me: Node, peer: Node, p: Packet, d: nat) {
    NoSkips(peer.log) && p.header.nr == me.self.closeSs + d ==> me.self.closeSs < |peer.log|
  }

  const A_MESSAGE: seq<byte> := [1]
  const A_STOP: seq<byte> := [0x80, 8, 0, 0, 0, 0, 0, 4]

  /** A confirmation means that the StopCCN was accepted exactly when it goes past it. */
  lemma ConfirmedExactlyPast(d: nat)
    ensures MeansAccepted(d) <==> d > 0
  {
    if d > 0 {
      forall run: seq<Step>, c: Setup, byA: bool, p: Packet | Confirms(run, c, byA, p)
        ensures AcceptedAtDistance(Me(Final(run, c), byA), Me(Final(run, c), !byA), p, d)
      {
        CloseConfirmed(run, c, byA, p);
      }
    } else {
      var c := Setup(1, 1, 2);
      var run, p := CloseConfirmedUnreceived(c, A_MESSAGE, A_MESSAGE, A_MESSAGE, A_STOP);
      assert !AcceptedAtDistance(Me(Final(run, c), true), Me(Final(run, c), false), p, d);
    }
  }

  // ----- the sequence number wraps -----

  /** After `n` messages sent by the granting side and accepted by the other. */
  predicate AfterRounds(s: System, c: Setup, n: nat) {
    && |s.b.sent| == n && |s.a.log| == n && NoSkips(s.a.log) && |s.a.sent| == 1 && NoSkips(s.b.log)
    && s.b.t == TunnelView(Wrap(n), 1, 0, c.tidA) && s.a.t.recSeqNum == Wrap(n)
    && s.a.alive && s.b.alive && s.a.born && s.b.born && s.a.ourtid == c.tidA
    && s.a.self in {UP, NO_CALL}
    && (n > 0 ==> Pkt(0, 1, c.tidA, 0, A_MESSAGE) in s.a.inbox)
  }

  /** The next message is on its way. */
  predicate AmidRound(s: System, c: Setup, n: nat) {
    && |s.b.sent| == n + 1 && |s.a.log| == n && NoSkips(s.a.log) && |s.a.sent| == 1 && NoSkips(s.b.log)
    && s.b.t == TunnelView(Wrap(n + 1), 1, 0, c.tidA) && s.a.t.recSeqNum == Wrap(n)
    && s.a.alive && s.b.alive && s.a.born && s.b.born && s.a.ourtid == c.tidA
    && s.a.self in {UP, NO_CALL}
    && Pkt(Wrap(n), 1, c.tidA, 0, A_MESSAGE) in s.a.inbox && Pkt(0, 1, c.tidA, 0, A_MESSAGE) in s.a.inbox
  }

  lemma HalfRound(run: seq<Step>, c: Setup, n: nat) returns (longer: seq<Step>)
    requires Usable(c) && Legal(run, c) && AfterRounds(Final(run, c), c, n)
    ensures Legal(longer, c) && AmidRound(Final(longer, c), c, n)
  {
    hide Act, Enabled, Legal, Final;
    SendEffect(Final(run, c).b, 0, A_MESSAGE, c.maxRetries);
    WrapNext(n);
    hide Wrap;
    longer := Extended(run, Step(false, Send(0, A_MESSAGE)), c);
  }

  lemma NoSkipsLonger(log: seq<Slot>, body: seq<byte>)
    requires NoSkips(log)
    ensures NoSkips(log + [Took(body)])
  {
  }

  lemma OneRound(run: seq<Step>, c: Setup, n: nat) returns (longer: seq<Step>)
    requires Usable(c) && Legal(run, c) && AfterRounds(Final(run, c), c, n)
    ensures Legal(longer, c) && AfterRounds(Final(longer, c), c, n + 1)
  {
    hide Act, Enabled, Legal, Final;
    longer := HalfRound(run, c, n);
    var m := Pkt(Wrap(n), 1, c.tidA, 0, A_MESSAGE);
    TakeEffect(Final(longer, c).a, m, NO_CALL, c.tidB, true, c.maxRetries);
    NoSkipsLonger(Final(longer, c).a.log, A_MESSAGE);
    WrapNext(n);
    hide Wrap, NoSkips;
    longer := Extended(longer, Step(true, TakeIt(m, NO_CALL, c.tidB, true)), c);
  }

  lemma {:induction false} Rounds(c: Setup, n: nat) returns (run: seq<Step>)
    requires Usable(c)
    ensures Legal(run, c) && AfterRounds(Final(run, c), c, n)
  {
    run := AskedRun(c, A_MESSAGE);
    for k := 0 to n
      invariant Legal(run, c) && AfterRounds(Final(run, c), c, k)
    {
      run := OneRound(run, c, k);
    }
  }

  /** When the number has come round, the first message is taken again. */
  lemma Replayed(run: seq<Step>, c: Setup, n: nat) returns (longer: seq<Step>)
    requires Usable(c) && Legal(run, c) && AfterRounds(Final(run, c), c, n) && n > 0 && Wrap(n) == 0
    ensures Legal(longer, c)
    ensures var s := Final(longer, c);
            |s.a.sent| == 1 && |s.b.sent| == n && |s.a.log| == n + 1 && NoSkips(s.a.log) && NoSkips(s.b.log)
  {
    hide Act, Enabled, Legal, Final;
    var again := Pkt(0, 1, c.tidA, 0, A_MESSAGE);
    TakeEffect(Final(run, c).a, again, NO_CALL, c.tidB, true, c.maxRetries);
    NoSkipsLonger(Final(run, c).a.log, A_MESSAGE);
    hide NoSkips, Wrap;
    longer := Extended(run, Step(true, TakeIt(again, NO_CALL, c.tidB, true)), c);
  }

  /** A run in which the first message is accepted a second time, as message 65,536. */
  lemma WrappedRun(c: Setup) returns (run: seq<Step>)
    requires Usable(c)
    ensures Legal(run, c)
    ensures var s := Final(run, c);
            && |s.a.sent| == 1 && |s.b.sent| == 0x1_0000 && |s.a.log| == 0x1_0001
            && NoSkips(s.a.log) && NoSkips(s.b.log)
  {
    run := Rounds(c, 0x1_0000);
    assert Wrap(0x1_0000) == 0;
    hide *;
    run := Replayed(run, c, 0x1_0000);
  }

  lemma {:induction false} AcceptedSize(log: seq<Slot>)
    requires NoSkips(log)
    ensures |Accepted(log)| == |log|
  {
    if log != [] {
      assert log[|log| - 1] in log && NoSkips(log[..|log| - 1]);
      AcceptedSize(log[..|log| - 1]);
    }
  }

  /** What each side accepted is the beginning of what the other sent. */
  predicate Prefixes(s: System) {
    Accepted(s.b.log) <= s.a.sent && Accepted(s.a.log) <= s.b.sent
  }

  /** Every run in which neither side numbers more than `n` messages, and no number is used
      up otherwise, delivers prefixes. */
  ghost predicate PrefixUpTo(n: nat) {
    forall run: seq<Step>, c: Setup :: Usable(c) && Legal(run, c) ==> PrefixesUpTo(Final(run, c), n)
  }

  predicate PrefixesUpTo(s: System, n: nat) {
    |s.a.sent| <= n && |s.b.sent| <= n && NoSkips(s.a.log) && NoSkips(s.b.log) ==> Prefixes(s)
  }

  /** In-order delivery is guaranteed for up to 65,535 messages and no further. */
  lemma PrefixExactlyBelowWrap(n: nat)
    ensures PrefixUpTo(n) <==> n < 0x1_0000
  {
    if n < 0x1_0000 {
      forall run: seq<Step>, c: Setup | Usable(c) && Legal(run, c) ensures PrefixesUpTo(Final(run, c), n) {
        ReliableDelivery(run, c);
      }
    } else {
      var c := Setup(1, 1, 2);
      var run := WrappedRun(c);
      AcceptedSize(Final(run, c).a.log);
      assert !PrefixesUpTo(Final(run, c), n);
    }
  }
}
