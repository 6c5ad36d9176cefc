/** What the control channel gets done: a timer resends exactly what is to be resent, what has
    been received is acknowledged again, and a message that has not been given up goes through
    as soon as the network lets two packets pass. */
module ChannelProgress {
  import opened Words
  import opened Endpoint
  import opened Channel
  import opened ChannelLimits

  /** The timer of a queued message. An acknowledged one is dropped. One that has gone out fewer
      times than allowed goes out again, and nothing else happens. Otherwise the tunnel is given
      up: a StopCCN takes the place of all that is queued, or, if one has been sent or was not
      to be, the tunnel is gone. */
  lemma TimerExactly(n: Node, k: nat, stop: seq<byte>, maxRetries: nat)
    requires Enabled(n, Timer(k, stop))
    ensures var e, q, rest := Act(n, Timer(k, stop), maxRetries), n.queue[k], n.queue[..k] + n.queue[k + 1..];
            if q.packet.header.ns < n.t.cLr then e == Effect(n.(queue := rest), {})
            else if q.retries < maxRetries then
              e == Effect(n.(queue := rest + [q.(retries := q.retries + 1)]), {q.packet})
            else if n.self.needClose || n.self.closing then !e.node.alive && e.node.queue == [] && e.out == {}
            else
              && e.node.alive && e.node.self.closing && e.node.self.needClose && e.node.self.closeSs == n.t.seqNum
              && e.node.sent == n.sent + [stop]
              && (maxRetries > 0 && n.t.cLr <= n.t.seqNum ==>
                    && |e.node.queue| == 1 && e.out == {e.node.queue[0].packet} && e.node.queue[0].retries == 1
                    && e.node.queue[0].packet.body == stop && e.node.queue[0].packet.header.ns == n.t.seqNum)
  {
    hide IsStop, IsBody;
  }

  /** A message that has been received before is acknowledged once more, and changes nothing:
      the answer names the next number expected. */
  lemma DuplicateAcknowledged(run: seq<Step>, c: Setup, byA: bool, p: Packet, call: CallView, ack: bool)
    requires Legal(run, c) && c.maxRetries > 0
    requires var me, peer := Me(Final(run, c), byA), Me(Final(run, c), !byA);
             && Sound(peer, me) && me.alive && me.born && Routed(me, p) && Ready(me) && p.body != []
             && p.header.ns < |me.log| < p.header.ns + 0x8000
    ensures var me := Me(Final(run, c), byA);
            var a := Receive(p, call, Handle(me.t, me.self, p).c, 0, ack);
            && Enabled(me, a)
            && var e := Act(me, a, c.maxRetries);
               && e.node.t == me.t && e.node.log == me.log && e.node.queue == me.queue && e.node.alive
               && |e.out| == 1
               && forall z <- e.out ::
                    z.body == [] && z.header.nr == |me.log| && z.header.ns == me.t.seqNum
                    && z.header.tid == Wrap(me.t.tid)
  {
    RunKeepsInv(run, c);
    var me, peer := Me(Final(run, c), byA), Me(Final(run, c), !byA);
    assert Direction(peer, me) && Formed(me);
    assert WellFormed(p) && me.t.recSeqNum == |me.log|;
    hide Legal, Final, Direction, Formed, Inv;
    StaleReply(me, p, call, ack, c.maxRetries);
  }

  lemma StaleReply(n: Node, p: Packet, call: CallView, ack: bool, maxRetries: nat)
    requires n.alive && n.born && Routed(n, p) && Ready(n) && WellFormed(p) && p.body != []
    requires p.header.ns < n.t.recSeqNum < p.header.ns + 0x8000
    ensures var a := Receive(p, call, Handle(n.t, n.self, p).c, 0, ack);
            && Enabled(n, a)
            && var e, cid := Act(n, a, maxRetries), if p.header.cid == 0 then n.self.cid else call.cid;
               && e.node == n && e.out == {Numbered(n.t, cid, [])}
  {
    hide IsStop, IsBody, Xmit;
    var z := Numbered(n.t, if p.header.cid == 0 then n.self.cid else call.cid, []);
    assert Replies(n, [z]) == {z};
  }

  /** A control packet: its length is right, and its first word has the bits T, L and S, and
      version 2. */
  predicate IsControl(p: Packet) {
    && p.header.length == 12 + |p.body| && p.header.ver >= 0x8000
    && (p.header.ver / 0x4000) % 2 == 1 && (p.header.ver / 0x0800) % 2 == 1 && p.header.ver % 8 == 2
  }

  /** The header of every packet of a tunnel, word by word. */
  lemma HeaderIs(t: TunnelView, cid: u16, body: seq<byte>)
    requires |body| < 0xFFF0 && 0 <= t.tid < 0x1_0000
    ensures Numbered(t, cid, body) == Packet(Header(0xC802, 12 + |body|, t.tid, cid, t.seqNum, t.recSeqNum), body)
  {
  }

  /** A message is delivered exactly if it is a control packet, not empty, and the next one. */
  lemma DeliveredExactly(t: TunnelView, c: CallView, p: Packet, call: u16)
    ensures Handle(t, c, p).delivered <==> IsControl(p) && p.body != [] && p.header.ns == t.recSeqNum
    ensures HandleSpecial(t, c, p, call).delivered <==> IsControl(p) && p.body != [] && p.header.ns == t.recSeqNum
  {
  }

  /** What a received packet changes. The next one moves the expected number on, unless it is
      empty, and its acknowledgement is taken; an empty one ends the wait for a close that it
      acknowledges, and only that. Of the others, one that is the first of a tunnel still
      without a peer closes it, and one that was received before, up to 32,767 ago, is answered. */
  lemma ReceivedExactly(t: TunnelView, c: CallView, p: Packet)
    ensures var h, next := Handle(t, c, p), p.header.length == 12 + |p.body| && p.header.ns == t.recSeqNum;
            var empty := IsControl(p) && p.body == [];
            && h.t == (if !next then t
                       else t.(cLr := p.header.nr,
                               recSeqNum := if empty then t.recSeqNum else (t.recSeqNum + 1) % 0x1_0000))
            && (next && empty ==>
                  h.c == c.(cnu := false, needClose := c.needClose && (!c.closing || p.header.nr < c.closeSs)))
            && (next && !empty ==> h.c == c.(cnu := true))
  {
  }

  lemma UnexpectedExactly(t: TunnelView, c: CallView, p: Packet)
    requires p.header.length != 12 + |p.body| || p.header.ns != t.recSeqNum
    ensures var h, sized := Handle(t, c, p), p.header.length == 12 + |p.body|;
            var before := 0 < t.recSeqNum - p.header.ns < 0x8000;
            && (h.reply != [] <==> sized && before && p.body != [])
            && (forall z <- h.reply :: z.body == [] && z.header.ns == t.seqNum && z.header.nr == t.recSeqNum)
            && h.c == if sized && !before && t.recSeqNum == 0 && t.tid == -1
                      then c.(needClose := false, closing := true) else c
  {
  }

  /** A message for a call that does not exist is acknowledged to that call. */
  lemma UnknownCallAnswered(t: TunnelView, c: CallView, p: Packet, call: u16)
    requires IsControl(p) && p.body != [] && p.header.ns == t.recSeqNum
    ensures var h := HandleSpecial(t, c, p, call);
            && |h.reply| == 1 && h.reply[0].body == [] && h.reply[0].header.cid == call
            && h.reply[0].header.nr == (t.recSeqNum + 1) % 0x1_0000 && h.reply[0].header.ns == t.seqNum
            && h.c.cid == 0 && h.t.cLr == p.header.nr && h.t.recSeqNum == (t.recSeqNum + 1) % 0x1_0000
  {
  }

  // ----- a message goes through -----

  /** The packet is addressed to this node. */
  predicate Reaches(p: Packet, n: Node) {
    if n.born then p.header.tid == n.ourtid else p.header.tid == 0 && p.header.cid == 0
  }

  /** The peer takes the expected message and acknowledges it to `tid`. */
  lemma Taken(n: Node, p: Packet, call: CallView, tid: u16, maxRetries: nat)
    requires n.alive && Routed(n, p) && Ready(n) && WellFormed(p) && p.body != [] && p.header.ns == n.t.recSeqNum
    ensures var a := Receive(p, call, Handle(n.t, n.self, p).c, tid, true);
            && Enabled(n, a)
            && var e := Act(n, a, maxRetries);
               && e.node.alive && e.node.log == n.log + [Took(p.body)] && e.node.sent == n.sent
               && e.node.inbox == n.inbox && e.node.queue == n.queue
               && e.out == {Numbered(e.node.t, (if p.header.cid == 0 then n.self else call).cid, [])}
               && e.node.t.tid == tid && e.node.t.seqNum == n.t.seqNum && e.node.t.recSeqNum == Wrap(n.t.recSeqNum + 1)
  {
    hide IsStop, IsBody, Xmit;
  }

  /** An acknowledgement is taken for what it says. */
  lemma AckTaken(n: Node, p: Packet, call: CallView, maxRetries: nat)
    requires n.alive && n.born && Routed(n, p) && Ready(n) && WellFormed(p) && p.body == []
    requires p.header.ns == n.t.recSeqNum
    ensures var a := Receive(p, call, Handle(n.t, n.self, p).c, 0, false);
            && Enabled(n, a)
            && var e := Act(n, a, maxRetries);
               && e.node == n.(t := n.t.(cLr := p.header.nr), self := e.node.self) && e.out == {}
  {
    hide IsStop, IsBody, Xmit;
    assert Replies(n, []) == {};
  }

  /** The run has come to a state with these two nodes. */
  ghost predicate At(run: seq<Step>, c: Setup, byA: bool, me: Node, peer: Node) {
    Legal(run, c) && Me(Final(run, c), byA) == me && Me(Final(run, c), !byA) == peer
  }

  /** One more step, by `me`. */
  lemma Acts(run: seq<Step>, a: Action, c: Setup, byA: bool, me: Node, peer: Node) returns (longer: seq<Step>)
    requires At(run, c, byA, me, peer) && Enabled(me, a)
    ensures |longer| == |run| + 1
    ensures var e := Act(me, a, c.maxRetries); At(longer, c, byA, e.node, peer.(inbox := peer.inbox + e.out))
  {
    longer := run + [Step(byA, a)];
    assert longer[..|run|] == run;
    hide Act, Enabled;
  }

  lemma Turned(run: seq<Step>, c: Setup, byA: bool, me: Node, peer: Node)
    requires At(run, c, byA, me, peer)
    ensures At(run, c, !byA, peer, me)
  {
    hide Legal, Final;
  }

  /** The message that the peer expects next is queued, has not been given up, and is addressed
      to the peer; we have received all that the peer has sent. */
  predicate Passable(me: Node, peer: Node, k: nat, c: Setup) {
    && Sound(me, peer) && Sound(peer, me) && |peer.log| + 1 < 0x1_0000 && |me.log| == |peer.sent|
    && me.alive && me.born && Ready(me) && peer.alive && Ready(peer) && k < |me.queue|
    && me.queue[k].retries < c.maxRetries && me.t.cLr <= me.queue[k].packet.header.ns == |peer.log|
    && Reaches(me.queue[k].packet, peer)
  }

  /** Numbers and records agree, and the packet is the message. */
  predicate Agreed(me: Node, peer: Node, p: Packet) {
    && me.t.recSeqNum == |me.log| && peer.t.seqNum == |peer.sent| && peer.t.recSeqNum == |peer.log| < |me.sent|
    && p.body == me.sent[|peer.log|] && p.body != [] && WellFormed(p)
  }

  lemma ReachedAgree(run: seq<Step>, c: Setup, byA: bool, me: Node, peer: Node, k: nat)
    requires At(run, c, byA, me, peer) && Passable(me, peer, k, c)
    ensures Agreed(me, peer, me.queue[k].packet)
  {
    RunKeepsInv(run, c);
    assert Direction(me, peer) && Direction(peer, me);
    assert me.queue[k] in me.queue;
    hide Legal, Final, Awaited, DistinctNumbers;
  }

  /** A node with one more packet to receive. */
  function Told(n: Node, p: Packet): Node {
    n.(inbox := n.inbox + {p})
  }

  /** A node that has sent message `k` of its queue once more. */
  function Resent(n: Node, k: nat): Node
    requires k < |n.queue|
  {
    n.(queue := n.queue[..k] + n.queue[k + 1..] + [n.queue[k].(retries := n.queue[k].retries + 1)])
  }

  /** The packet goes out again. */
  lemma Resend(run: seq<Step>, c: Setup, byA: bool, me: Node, peer: Node, k: nat, stop: seq<byte>)
    returns (longer: seq<Step>)
    requires At(run, c, byA, me, peer) && Passable(me, peer, k, c) && IsBody(stop) && IsStop(stop)
    ensures |longer| == |run| + 1 && At(longer, c, !byA, Told(peer, me.queue[k].packet), Resent(me, k))
  {
    hide At, Act, IsStop, IsBody;
    TimerExactly(me, k, stop, c.maxRetries);
    longer := Acts(run, Timer(k, stop), c, byA, me, peer);
    var e := Act(me, Timer(k, stop), c.maxRetries);
    Turned(longer, c, byA, e.node, peer.(inbox := peer.inbox + e.out));
  }

  /** A node that has taken the message and said so to `tid`. */
  predicate HasTaken(n: Node, was: Node, body: seq<byte>, tid: u16) {
    && n.alive && n.log == was.log + [Took(body)] && n.sent == was.sent && n.queue == was.queue
    && n.t.tid == tid && n.t.seqNum == was.t.seqNum && n.t.recSeqNum == Wrap(was.t.recSeqNum + 1)
  }

  /** The peer takes it and acknowledges it. */
  lemma PeerTakes(run: seq<Step>, c: Setup, byA: bool, peer: Node, me: Node, p: Packet, call: CallView)
    returns (longer: seq<Step>, peer1: Node, z: Packet)
    requires At(run, c, !byA, peer, me) && peer.alive && p in peer.inbox && Reaches(p, peer) && Ready(peer)
    requires WellFormed(p) && p.body != [] && p.header.ns == peer.t.recSeqNum
    ensures |longer| == |run| + 1 && HasTaken(peer1, peer, p.body, me.ourtid)
    ensures z == Numbered(peer1.t, (if p.header.cid == 0 then peer.self else call).cid, [])
    ensures At(longer, c, byA, Told(me, z), peer1)
  {
    hide At, Act, WellFormed, Numbered;
    Taken(peer, p, call, me.ourtid, c.maxRetries);
    var a := Receive(p, call, Handle(peer.t, peer.self, p).c, me.ourtid, true);
    longer := Acts(run, a, c, !byA, peer, me);
    peer1 := Act(peer, a, c.maxRetries).node;
    z := Numbered(peer1.t, (if p.header.cid == 0 then peer.self else call).cid, []);
    Turned(longer, c, !byA, peer1, me.(inbox := me.inbox + {z}));
  }

  /** The acknowledgement is taken, and the message dropped. */
  lemma AckDrops(run: seq<Step>, c: Setup, byA: bool, me: Node, peer: Node, z: Packet, call: CallView,
                 rest: seq<Queued>, q: Queued, stop: seq<byte>)
    returns (longer: seq<Step>, me1: Node)
    requires At(run, c, byA, me, peer) && me.alive && me.born && Ready(me) && z in me.inbox && Reaches(z, me)
    requires WellFormed(z) && z.body == [] && z.header.ns == me.t.recSeqNum && me.queue == rest + [q]
    requires q.packet.header.ns < z.header.nr && IsBody(stop) && IsStop(stop)
    ensures |longer| == |run| + 2 && At(longer, c, byA, me1, peer)
    ensures me1 == me.(t := me.t.(cLr := z.header.nr), self := me1.self, queue := rest)
  {
    hide At, Act, WellFormed, IsStop, IsBody;
    AckTaken(me, z, call, c.maxRetries);
    var a := Receive(z, call, Handle(me.t, me.self, z).c, 0, false);
    longer := Acts(run, a, c, byA, me, peer);
    var me2 := Act(me, a, c.maxRetries).node;
    assert peer.inbox + {} == peer.inbox;
    assert me2.queue[|rest|] == q && me2.queue[..|rest|] == rest && me2.queue[|rest| + 1..] == [];
    assert rest + [] == rest;
    TimerExactly(me2, |rest|, stop, c.maxRetries);
    longer := Acts(longer, Timer(|rest|, stop), c, byA, me2, peer);
    me1 := Act(me2, Timer(|rest|, stop), c.maxRetries).node;
  }

  /** The peer has accepted the message that it expected, and it is no longer queued. */
  predicate WentThrough(me: Node, peer: Node, k: nat, me1: Node, peer1: Node) {
    && k < |me.queue| && |peer.log| < |me.sent|
    && peer1.log == peer.log + [Took(me.sent[|peer.log|])] && me1.log == me.log
    && me1.queue == me.queue[..k] + me.queue[k + 1..] && peer1.queue == peer.queue
    && me1.t.cLr == |peer.log| + 1 && me1.t.seqNum == me.t.seqNum && me1.t.recSeqNum == me.t.recSeqNum
    && me1.alive && peer1.alive && me1.sent == me.sent && peer1.sent == peer.sent
  }

  /** The first half: the peer has the message, and we its acknowledgement. */
  lemma PeerGetsIt(run: seq<Step>, c: Setup, byA: bool, me: Node, peer: Node, k: nat, stop: seq<byte>, call: CallView)
    returns (longer: seq<Step>, peer1: Node, z: Packet)
    requires At(run, c, byA, me, peer) && Passable(me, peer, k, c) && Agreed(me, peer, me.queue[k].packet)
    requires IsBody(stop) && IsStop(stop)
    ensures && |longer| == |run| + 2 && HasTaken(peer1, peer, me.queue[k].packet.body, me.ourtid)
            && z.body == [] && WellFormed(z) && z.header.ns == peer.t.seqNum && z.header.tid == me.ourtid
            && z.header.nr == |peer.log| + 1 && At(longer, c, byA, Told(Resent(me, k), z), peer1)
  {
    var p := me.queue[k].packet;
    var peer0 := Told(peer, p);
    assert peer0.alive && p in peer0.inbox && Reaches(p, peer0) && Ready(peer0) && p.header.ns == peer0.t.recSeqNum;
    assert peer0 == peer.(inbox := peer0.inbox) && Resent(me, k).ourtid == me.ourtid && WellFormed(p) && p.body != [];
    assert peer.t.recSeqNum == |peer.log| < 0xFFFF;
    longer := Resend(run, c, byA, me, peer, k, stop);
    hide *;
    longer, peer1, z := PeerTakes(longer, c, byA, peer0, Resent(me, k), p, call);
    EmptyFormed(peer1.t, (if p.header.cid == 0 then peer.self else call).cid);
    TakenFields(peer1, peer0, peer, p.body, me.ourtid);
  }

  lemma TakenFields(n: Node, was: Node, was0: Node, body: seq<byte>, tid: u16)
    requires HasTaken(n, was, body, tid) && was == was0.(inbox := was.inbox) && was.t.recSeqNum < 0xFFFF
    ensures HasTaken(n, was0, body, tid) && n.t.tid == tid == Wrap(tid) && n.t.seqNum == was.t.seqNum
    ensures n.t.recSeqNum == was.t.recSeqNum + 1
  {
  }

  /** In every reachable state such a message is accepted by the peer and dropped from our queue
      after one timer run, its packet, the acknowledgement and one more timer run. */
  lemma MessageGoesThrough(run: seq<Step>, c: Setup, byA: bool, me: Node, peer: Node, k: nat, stop: seq<byte>,
                           call: CallView)
    returns (longer: seq<Step>, me1: Node, peer1: Node)
    requires At(run, c, byA, me, peer) && Passable(me, peer, k, c) && IsBody(stop) && IsStop(stop)
    ensures |longer| == |run| + 4 && At(longer, c, byA, me1, peer1) && WentThrough(me, peer, k, me1, peer1)
  {
    var q, rest := me.queue[k], me.queue[..k] + me.queue[k + 1..];
    ReachedAgree(run, c, byA, me, peer, k);
    assert me.alive && me.born && Ready(me) && |me.log| == |peer.sent| && q.packet.header.ns == |peer.log|;
    AgreedParts(me, peer, q.packet);
    hide At, Agreed, IsStop, IsBody, WellFormed, Passable;
    var z;
    longer, peer1, z := PeerGetsIt(run, c, byA, me, peer, k, stop, call);
    longer, me1 := AckDrops(longer, c, byA, Told(Resent(me, k), z), peer1, z, call, rest,
                            q.(retries := q.retries + 1), stop);
  }

  lemma AgreedParts(me: Node, peer: Node, p: Packet)
    requires Agreed(me, peer, p)
    ensures me.t.recSeqNum == |me.log| && peer.t.seqNum == |peer.sent| && peer.t.recSeqNum == |peer.log| < |me.sent|
    ensures p.body == me.sent[|peer.log|] && p.body != [] && WellFormed(p)
  {
  }

  lemma EmptyFormed(t: TunnelView, cid: u16)
    ensures var z := Numbered(t, cid, []);
            WellFormed(z) && z.header.ns == t.seqNum && z.header.nr == t.recSeqNum && z.header.tid == Wrap(t.tid)
  {
  }
}
