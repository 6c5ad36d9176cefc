/** Two endpoints over a network that loses, duplicates and reorders packets.

    A node's `inbox` holds every packet ever sent to it, and a delivery picks
    any of them any number of times. `sent` records the control messages a node
    numbered; `log` records, number by number, what it took in. A node that waits for
    a tunnel to be asked for is not born yet; a packet belongs to a tunnel by the
    identifier in its header, and to the tunnel itself or one of its calls. */
module Channel {
  import opened Words
  import opened Endpoint

  datatype Queued = Queued(packet: Packet, retries: nat)

  /** What became of an expected number: a message was accepted, or a zero-length body
      for a call that does not exist used it up. */
  datatype Slot = Took(body: seq<byte>) | Skipped

  datatype Node = Node(ourtid: u16, born: bool, t: TunnelView, self: CallView, queue: seq<Queued>, alive: bool,
                       inbox: set<Packet>, sent: seq<seq<byte>>, log: seq<Slot>)

  /** What one node does; `stop` is the body of the StopCCN it may have to send. */
  datatype Action =
    | Send(cid: u16, body: seq<byte>)
    | Receive(p: Packet, call: CallView, after: CallView, newTid: int, ack: bool)
    | ReceiveUnknownCall(p: Packet)
    | EchoRequest(p: Packet)
    | Timer(k: nat, stop: seq<byte>)
    | Close(stop: seq<byte>)

  datatype Effect = Effect(node: Node, out: set<Packet>)

  predicate IsBody(body: seq<byte>) {
    0 < |body| <= MAX_BODY
  }

  /** The body of a StopCCN: the value of its first attribute says so. */
  predicate IsStop(body: seq<byte>) {
    |body| >= 8 && Get16(body, 6) == 4
  }

  /** The messages a node accepted. */
  function Accepted(log: seq<Slot>): seq<seq<byte>> {
    if log == [] then []
    else
      var last := log[|log| - 1];
      Accepted(log[..|log| - 1]) + (if last.Took? then [last.body] else [])
  }

  predicate NoSkips(log: seq<Slot>) {
    forall x <- log :: x.Took?
  }

  // ----- one node -----

  /** Number a message, hand it to the transmit routine for the first time. */
  function Submit(n: Node, cid: u16, body: seq<byte>, maxRetries: nat): (e: Effect) {
    var p := Numbered(n.t, cid, body);
    var n1 := n.(t := n.t.(seqNum := Wrap(n.t.seqNum + 1)), sent := n.sent + [body]);
    match Xmit(p.header.ns, n.t.cLr, 0, maxRetries)
    case Sent(_) => Effect(n1.(queue := n1.queue + [Queued(p, 1)]), {p})
    case _ => Effect(n1, {})
  }

  function Destroyed(n: Node): Node {
    n.(queue := [], alive := false)
  }

  /** Close the tunnel: drop what is queued for it, then either destroy it or
      send the StopCCN and wait. */
  function CloseTunnel(n: Node, stop: seq<byte>, maxRetries: nat): Effect {
    if n.self.closing then
      Effect(Destroyed(n), {})
    else
      var e := Submit(n.(queue := [], self := n.self.(closeSs := n.t.seqNum)), n.self.cid, stop, maxRetries);
      e.(node := e.node.(self := e.node.self.(closing := true)))
  }

  function NeedClose(n: Node): Node {
    n.(self := n.self.(needClose := true))
  }

  function Replies(n: Node, reply: seq<Packet>): set<Packet> {
    set p | p in reply
  }

  /** A handler may ask for a close, or find the tunnel closed by the peer; it never takes
      either back and leaves the number of our own closing message alone. */
  predicate ClosesOnly(before: CallView, after: CallView) {
    && after.closeSs == before.closeSs && after.cid == before.cid
    && ((after.closing == before.closing && (before.needClose ==> after.needClose))
        || (after.closing && !after.needClose))
  }

  /** A packet that the tunnel of this node gets: the first one, for no tunnel yet, makes it. */
  predicate Routed(n: Node, p: Packet) {
    && p in n.inbox
    && if n.born then p.header.tid == n.ourtid else p.header.tid == 0 && p.header.cid == 0
  }

  /** Before it waits for a packet the daemon closes every tunnel whose flags differ. */
  predicate Ready(n: Node) {
    n.self.needClose == n.self.closing
  }

  predicate Enabled(n: Node, a: Action) {
    n.alive && (n.born || a.Receive?) &&
    match a
    case Send(_, body) => IsBody(body) && !IsStop(body)
    case Receive(p, _, after, _, _) =>
      Routed(n, p) && Ready(n) && (p.header.cid == 0 ==> ClosesOnly(Handle(n.t, n.self, p).c, after))
    case ReceiveUnknownCall(p) => Routed(n, p) && Ready(n) && p.header.cid != 0
    case EchoRequest(p) => p in n.inbox && p.header.tid == 0 && p.header.cid == 0 && n.log != []
    case Timer(k, stop) => k < |n.queue| && IsBody(stop) && IsStop(stop)
    case Close(stop) => IsBody(stop) && IsStop(stop)
  }

  function Act(n: Node, a: Action, maxRetries: nat): Effect
    requires Enabled(n, a)
  {
    match a
    case Send(cid, body) => Submit(n, cid, body, maxRetries)
    case Receive(p, call, after, newTid, ack) => Take(n.(born := true), p, call, after, newTid, ack)
    case ReceiveUnknownCall(p) =>
      var r := HandleSpecial(n.t, n.self, p, p.header.cid);
      var slot := if r.delivered then [Took(p.body)] else if Phantom(n, p) then [Skipped] else [];
      Effect(n.(t := r.t, self := r.c, log := n.log + slot), Replies(n, r.reply))
    case EchoRequest(p) =>
      // a repeated tunnel request is acknowledged by a short-lived second tunnel
      Effect(n, {Packet(Header(CONTROL_VER, CONTROL_HDR_SIZE, Wrap(n.t.tid), 0, 0, 1), [])})
    case Timer(k, stop) =>
      var q := n.queue[k];
      var n1 := n.(queue := n.queue[..k] + n.queue[k + 1..]);
      (match Xmit(q.packet.header.ns, n.t.cLr, q.retries, maxRetries)
       case Tossed => Effect(n1, {})
       case Sent(_) => Effect(n1.(queue := n1.queue + [q.(retries := q.retries + 1)]), {q.packet})
       case GivenUp =>
         if n.self.needClose then Effect(Destroyed(n1), {}) else CloseTunnel(NeedClose(n1), stop, maxRetries))
    case Close(stop) => CloseTunnel(NeedClose(n), stop, maxRetries)
  }

  /** A packet for the tunnel itself or for one of its calls. */
  function Take(n: Node, p: Packet, call: CallView, after: CallView, newTid: int, ack: bool): Effect {
    var onSelf := p.header.cid == 0;
    var r := Handle(n.t, if onSelf then n.self else call, p);
    if r.delivered then
      var n1 := n.(t := r.t.(tid := newTid), log := n.log + [Took(p.body)], self := if onSelf then after else n.self);
      Effect(n1, if ack then {Numbered(n1.t, r.c.cid, [])} else {})
    else
      Effect(n.(t := r.t, self := if onSelf then r.c else n.self), Replies(n, r.reply))
  }

  /** A zero-length body for an unknown call that carries the expected number. */
  predicate Phantom(n: Node, p: Packet) {
    p.body == [] && p.header.length == CONTROL_HDR_SIZE && p.header.ns == n.t.recSeqNum
  }

  // ----- two nodes and runs -----

  datatype System = System(a: Node, b: Node)

  datatype Step = Step(byA: bool, action: Action)

  /** The side that asks for the tunnel is `a`. */
  datatype Setup = Setup(maxRetries: nat, tidA: u16, tidB: u16)

  function InitNode(ourtid: u16, born: bool): Node {
    Node(ourtid, born, TunnelView(0, 0, 0, if born then 0 else -1), CallView(false, false, false, 0, 0), [], true, {},
         [], [])
  }

  function Init(c: Setup): System {
    System(InitNode(c.tidA, true), InitNode(c.tidB, false))
  }

  function Actor(s: System, step: Step): Node {
    if step.byA then s.a else s.b
  }

  function Next(s: System, step: Step, c: Setup): System
    requires Enabled(Actor(s, step), step.action)
  {
    var e := Act(Actor(s, step), step.action, c.maxRetries);
    if step.byA then System(e.node, s.b.(inbox := s.b.inbox + e.out))
    else System(s.a.(inbox := s.a.inbox + e.out), e.node)
  }

  /** `run` can be executed from the initial state. */
  predicate Legal(run: seq<Step>, c: Setup)
    decreases |run|, 0
  {
    run == [] ||
    (Legal(run[..|run| - 1], c) &&
     var last := run[|run| - 1];
     Enabled(Actor(Final(run[..|run| - 1], c), last), last.action))
  }

  function Final(run: seq<Step>, c: Setup): System
    requires Legal(run, c)
    decreases |run|, 1
  {
    if run == [] then Init(c)
    else Next(Final(run[..|run| - 1], c), run[|run| - 1], c)
  }

  // ----- what every step keeps -----

  /** Every packet in flight or queued is a well-formed control packet. */
  predicate WellFormed(p: Packet) {
    p.header.ver == CONTROL_VER && p.header.length == CONTROL_HDR_SIZE + |p.body|
  }

  /** A packet carries the message its number names, or nothing. */
  predicate Carries(p: Packet, sent: seq<seq<byte>>) {
    && WellFormed(p)
    && (if p.body == [] then p.header.ns <= |sent| else p.header.ns < |sent| && sent[p.header.ns] == p.body)
  }

  /** What was accepted under a number is the message of that number. */
  predicate LogTrue(log: seq<Slot>, sent: seq<seq<byte>>) {
    forall i :: 0 <= i < |log| && log[i].Took? ==> i < |sent| && log[i].body == sent[i]
  }

  predicate Awaited(queue: seq<Queued>, ns: int) {
    exists j :: 0 <= j < |queue| && queue[j].packet.header.ns == ns
  }

  predicate DistinctNumbers(queue: seq<Queued>) {
    forall i, j :: 0 <= i < j < |queue| ==> queue[i].packet.header.ns != queue[j].packet.header.ns
  }

  /** The messages from `s` to `r`, and the acknowledgements that come back. */
  ghost predicate Direction(s: Node, r: Node) {
    && s.t.seqNum == |s.sent| && r.t.recSeqNum == |r.log| <= |s.sent| + 1
    && LogTrue(r.log, s.sent)
    && (forall p <- r.inbox :: Carries(p, s.sent))
    && (forall q <- s.queue :: q.packet.body != [] && Carries(q.packet, s.sent))
    && DistinctNumbers(s.queue)
    && (forall p <- s.inbox :: p.header.nr <= |r.log|)
    && (forall q <- r.queue :: q.packet.header.nr <= |r.log|)
    && s.t.cLr <= |r.log|
    && (s.alive && !s.self.closing ==> forall k :: |r.log| <= k < |s.sent| ==> Awaited(s.queue, k))
  }

  /** No number is used twice: fewer than 65,536 on either side. */
  predicate Sound(s: Node, r: Node) {
    |s.sent| < 0x1_0000 && |r.log| < 0x1_0000
  }

  /** A receiver that skipped nothing is not ahead of the sender. */
  predicate NotAhead(s: Node, r: Node) {
    |s.sent| < 0x1_0000 && NoSkips(r.log) ==> |r.log| <= |s.sent|
  }

  /** Packets are control packets, whoever they are for. */
  predicate Formed(n: Node) {
    (forall p <- n.inbox :: WellFormed(p)) && (forall q <- n.queue :: WellFormed(q.packet))
  }

  ghost predicate Inv(s: System) {
    && Formed(s.a) && Formed(s.b)
    && (Sound(s.a, s.b) ==> Direction(s.a, s.b)) && NotAhead(s.a, s.b)
    && (Sound(s.b, s.a) ==> Direction(s.b, s.a)) && NotAhead(s.b, s.a)
  }

  // ----- what receiving does -----

  /** A packet is delivered when it is the expected one and has a body; answers are empty. */
  lemma HandleFacts(t: TunnelView, c: CallView, p: Packet)
    requires WellFormed(p)
    ensures var h := Handle(t, c, p);
            && h.t.seqNum == t.seqNum && h.t.tid == t.tid && (h.t.cLr == t.cLr || h.t.cLr == p.header.nr)
            && (h.delivered <==> p.header.ns == t.recSeqNum && p.body != [])
            && h.t.recSeqNum == (if h.delivered then Wrap(t.recSeqNum + 1) else t.recSeqNum)
            && (forall q <- h.reply :: q == Numbered(t, c.cid, []))
  {
  }

  lemma SpecialFacts(t: TunnelView, c: CallView, p: Packet)
    requires WellFormed(p)
    ensures var h := HandleSpecial(t, c, p, p.header.cid);
            && h.t.seqNum == t.seqNum && h.t.tid == t.tid && (h.t.cLr == t.cLr || h.t.cLr == p.header.nr)
            && (h.delivered <==> p.header.ns == t.recSeqNum && p.body != [])
            && h.t.recSeqNum == (if p.header.ns == t.recSeqNum then Wrap(t.recSeqNum + 1) else t.recSeqNum)
            && (forall q <- h.reply ::
                  q.body == [] && WellFormed(q) && q.header.ns == t.seqNum && q.header.nr == h.t.recSeqNum)
  {
  }

  /** The flags of a call after a packet: nothing but an acknowledged close ends a wait. */
  lemma HandleFlags(t: TunnelView, c: CallView, p: Packet)
    requires WellFormed(p)
    ensures var k := Handle(t, c, p).c;
            && k.closeSs == c.closeSs && k.cid == c.cid && (c.closing ==> k.closing)
            && (k.needClose ==> c.needClose) && (k.closing ==> c.closing || !k.needClose)
            && (c.needClose && !k.needClose ==> k.closing)
  {
  }

  lemma SpecialFlags(t: TunnelView, c: CallView, p: Packet)
    requires WellFormed(p)
    ensures var k := HandleSpecial(t, c, p, p.header.cid).c;
            && k.closeSs == c.closeSs && (c.closing ==> k.closing)
            && (k.needClose ==> c.needClose) && (k.closing ==> c.closing || !k.needClose)
            && (c.needClose && !k.needClose ==> k.closing)
  {
  }

  // ----- the sending side acts -----

  /** Histories only grow, and acting never touches the node's own inbox. */
  lemma HistoryGrows(n: Node, a: Action, maxRetries: nat)
    requires Enabled(n, a)
    ensures var m := Act(n, a, maxRetries).node; n.sent <= m.sent && n.log <= m.log && m.inbox == n.inbox
  {
    hide Handle, HandleSpecial, Xmit, Numbered;
  }

  lemma SubmitKeepsDirection(s: Node, r: Node, cid: u16, body: seq<byte>, maxRetries: nat)
    requires Direction(s, r) && maxRetries > 0 && |s.sent| + 1 < 0x1_0000 && IsBody(body)
    ensures var e := Submit(s, cid, body, maxRetries);
            Direction(e.node, r.(inbox := r.inbox + e.out))
  {
    var e := Submit(s, cid, body, maxRetries);
    var q := e.node.queue;
    if |r.log| <= |s.sent| {
      assert q == s.queue + [Queued(Numbered(s.t, cid, body), 1)];
      forall k | |r.log| <= k < |e.node.sent| && s.alive && !s.self.closing ensures Awaited(q, k) {
        if k == |s.sent| {
          assert q[|s.queue|].packet.header.ns == k;
        } else {
          assert Awaited(s.queue, k);
          var j :| 0 <= j < |s.queue| && s.queue[j].packet.header.ns == k;
          assert q[j].packet.header.ns == k;
        }
      }
    }
  }

  lemma CloseKeepsDirection(s: Node, r: Node, stop: seq<byte>, maxRetries: nat)
    requires Direction(s, r) && maxRetries > 0 && IsBody(stop)
    requires !s.self.closing ==> |s.sent| + 1 < 0x1_0000
    ensures var e := CloseTunnel(s, stop, maxRetries);
            Direction(e.node, r.(inbox := r.inbox + e.out))
  {
    if !s.self.closing {
      var s1 := s.(queue := [], self := s.self.(closeSs := s.t.seqNum, closing := true));
      assert Direction(s1, r);
      SubmitKeepsDirection(s1, r, s.self.cid, stop, maxRetries);
      var e, e1 := CloseTunnel(s, stop, maxRetries), Submit(s1, s.self.cid, stop, maxRetries);
      assert e == e1;
    }
  }

  /** Asking for the close changes nothing the direction looks at. */
  lemma AskedCloseKeepsDirection(s: Node, r: Node, queue: seq<Queued>, stop: seq<byte>, maxRetries: nat)
    requires Direction(s, r) && maxRetries > 0 && IsBody(stop)
    requires !s.self.closing ==> |s.sent| + 1 < 0x1_0000
    ensures var e := CloseTunnel(NeedClose(s.(queue := queue)), stop, maxRetries);
            Direction(e.node, r.(inbox := r.inbox + e.out))
  {
    var s1 := NeedClose(s);
    assert Direction(s1, r);
    CloseKeepsDirection(s1, r, stop, maxRetries);
    assert CloseTunnel(s1.(queue := queue), stop, maxRetries) == CloseTunnel(s1, stop, maxRetries);
  }

  /** Taking entry `k` out of the queue leaves every other number awaited. */
  lemma RemoveKeepsAwaited(queue: seq<Queued>, k: nat, ns: int)
    requires k < |queue| && DistinctNumbers(queue) && Awaited(queue, ns)
    requires ns != queue[k].packet.header.ns
    ensures Awaited(queue[..k] + queue[k + 1..], ns)
  {
    var j :| 0 <= j < |queue| && queue[j].packet.header.ns == ns;
    var rest := queue[..k] + queue[k + 1..];
    assert rest[if j < k then j else j - 1] == queue[j];
  }

  /** Putting the entry back at the end restores the full queue. */
  lemma RequeueKeepsAwaited(queue: seq<Queued>, k: nat, q: Queued, ns: int)
    requires k < |queue| && DistinctNumbers(queue) && Awaited(queue, ns)
    requires q.packet == queue[k].packet
    ensures Awaited(queue[..k] + queue[k + 1..] + [q], ns)
  {
    var rest := queue[..k] + queue[k + 1..];
    if ns == q.packet.header.ns {
      assert (rest + [q])[|rest|].packet.header.ns == ns;
    } else {
      RemoveKeepsAwaited(queue, k, ns);
      var j :| 0 <= j < |rest| && rest[j].packet.header.ns == ns;
      assert (rest + [q])[j].packet.header.ns == ns;
    }
  }

  lemma TossKeepsDirection(s: Node, r: Node, k: nat)
    requires Direction(s, r) && k < |s.queue| && s.queue[k].packet.header.ns < s.t.cLr
    ensures Direction(s.(queue := s.queue[..k] + s.queue[k + 1..]), r)
  {
    var rest := s.queue[..k] + s.queue[k + 1..];
    forall m | |r.log| <= m < |s.sent| && s.alive && !s.self.closing ensures Awaited(rest, m) {
      RemoveKeepsAwaited(s.queue, k, m);
    }
  }

  lemma RequeueKeepsDirection(s: Node, r: Node, k: nat, q: Queued)
    requires Direction(s, r) && k < |s.queue| && q.packet == s.queue[k].packet
    ensures Direction(s.(queue := s.queue[..k] + s.queue[k + 1..] + [q]), r.(inbox := r.inbox + {q.packet}))
  {
    assert s.queue[k] in s.queue;
    var queue1 := s.queue[..k] + s.queue[k + 1..] + [q];
    forall m | |r.log| <= m < |s.sent| && s.alive && !s.self.closing ensures Awaited(queue1, m) {
      RequeueKeepsAwaited(s.queue, k, q, m);
    }
  }

  lemma TimerKeepsDirection(s: Node, r: Node, k: nat, stop: seq<byte>, maxRetries: nat)
    requires Direction(s, r) && maxRetries > 0 && Enabled(s, Timer(k, stop))
    requires |Act(s, Timer(k, stop), maxRetries).node.sent| < 0x1_0000
    ensures var e := Act(s, Timer(k, stop), maxRetries);
            Direction(e.node, r.(inbox := r.inbox + e.out))
  {
    var q := s.queue[k];
    var rest := s.queue[..k] + s.queue[k + 1..];
    assert r.(inbox := r.inbox + {}) == r;
    match Xmit(q.packet.header.ns, s.t.cLr, q.retries, maxRetries)
    case Tossed => TossKeepsDirection(s, r, k);
    case Sent(_) => RequeueKeepsDirection(s, r, k, q.(retries := q.retries + 1));
    case GivenUp =>
      if !s.self.needClose {
        AskedCloseKeepsDirection(s, r, rest, stop, maxRetries);
      }
  }

  /** The node numbered nothing new and only answered with empty bodies. */
  ghost predicate Quiet(s: Node, r: Node, e: Effect) {
    && e.node.sent == s.sent && e.node.queue == s.queue && e.node.inbox == s.inbox && e.node.alive == s.alive
    && e.node.t.seqNum == s.t.seqNum && e.node.t.cLr <= |r.log|
    && (s.self.closing ==> e.node.self.closing)
    && (forall p <- e.out :: WellFormed(p) && p.body == [] && p.header.ns <= |s.sent|)
  }

  lemma QuietKeepsDirection(s: Node, r: Node, e: Effect)
    requires Direction(s, r) && Quiet(s, r, e)
    ensures Direction(e.node, r.(inbox := r.inbox + e.out))
  {
  }

  lemma TakingIsQuiet(s: Node, r: Node, a: Action, maxRetries: nat)
    requires Direction(s, r) && Enabled(s, a) && |s.sent| < 0x1_0000 && a.Receive?
    requires Formed(s)
    ensures Quiet(s, r, Act(s, a, maxRetries))
  {
    hide LogTrue, Carries, DistinctNumbers, Awaited, IsBody, IsStop, Handle;
    HandleFacts(s.t, if a.p.header.cid == 0 then s.self else a.call, a.p);
    HandleFlags(s.t, s.self, a.p);
  }

  lemma SpecialIsQuiet(s: Node, r: Node, a: Action, maxRetries: nat)
    requires Direction(s, r) && Enabled(s, a) && |s.sent| < 0x1_0000 && a.ReceiveUnknownCall?
    requires Formed(s)
    ensures Quiet(s, r, Act(s, a, maxRetries))
  {
    hide LogTrue, Carries, DistinctNumbers, Awaited, IsBody, IsStop, HandleSpecial;
    SpecialFacts(s.t, s.self, a.p);
    SpecialFlags(s.t, s.self, a.p);
  }

  lemma ReceivingIsQuiet(s: Node, r: Node, a: Action, maxRetries: nat)
    requires Direction(s, r) && Enabled(s, a) && |s.sent| < 0x1_0000
    requires a.Receive? || a.ReceiveUnknownCall? || a.EchoRequest?
    requires Formed(s)
    ensures Quiet(s, r, Act(s, a, maxRetries))
  {
    hide LogTrue, Carries, DistinctNumbers, Awaited, IsBody, IsStop, Take, HandleSpecial;
    if a.Receive? {
      TakingIsQuiet(s, r, a, maxRetries);
    } else if a.ReceiveUnknownCall? {
      SpecialIsQuiet(s, r, a, maxRetries);
    }
  }

  lemma SenderActs(s: Node, r: Node, a: Action, maxRetries: nat)
    requires Direction(s, r) && maxRetries > 0 && Enabled(s, a)
    requires Sound(Act(s, a, maxRetries).node, r) && Formed(s)
    ensures var e := Act(s, a, maxRetries);
            Direction(e.node, r.(inbox := r.inbox + e.out))
  {
    hide Direction;
    HistoryGrows(s, a, maxRetries);
    match a
    case Send(cid, body) => SubmitKeepsDirection(s, r, cid, body, maxRetries);
    case Timer(k, stop) => TimerKeepsDirection(s, r, k, stop, maxRetries);
    case Close(stop) => AskedCloseKeepsDirection(s, r, s.queue, stop, maxRetries);
    case _ =>
      ReceivingIsQuiet(s, r, a, maxRetries);
      QuietKeepsDirection(s, r, Act(s, a, maxRetries));
  }

  // ----- the receiving side acts -----

  /** Every acknowledgement that leaves the receiver is truthful. */
  ghost predicate Truthful(r: Node, e: Effect) {
    && (forall p <- e.out :: p.header.nr <= |e.node.log|)
    && (forall q <- e.node.queue :: q.packet.header.nr <= |e.node.log| || exists o <- r.queue :: o.packet == q.packet)
  }

  /** The receiver's expected number still counts what it has been through. */
  ghost predicate Counts(s: Node, r: Node, e: Effect) {
    && e.node.inbox == r.inbox && e.node.t.recSeqNum == |e.node.log| <= |s.sent| + 1
    && r.log <= e.node.log && LogTrue(e.node.log, s.sent)
    && Truthful(r, e)
  }

  lemma CountsKeepsDirection(s: Node, r: Node, e: Effect)
    requires Direction(s, r) && Counts(s, r, e)
    ensures Direction(s.(inbox := s.inbox + e.out), e.node)
  {
    hide LogTrue, Carries, DistinctNumbers, Awaited;
  }

  /** What a packet with number and body as sent does to the log. */
  lemma TookIsTrue(s: Node, r: Node, p: Packet)
    requires Direction(s, r) && Carries(p, s.sent) && p.header.ns == |r.log|
    ensures p.body != [] ==> LogTrue(r.log + [Took(p.body)], s.sent) && |r.log| < |s.sent|
    ensures p.body == [] ==> LogTrue(r.log + [Skipped], s.sent) && |r.log| <= |s.sent|
  {
  }

  lemma TakingCounts(s: Node, r: Node, a: Action, maxRetries: nat)
    requires Direction(s, r) && Enabled(r, a) && a.Receive?
    requires Sound(s, Act(r, a, maxRetries).node)
    ensures Counts(s, r, Act(r, a, maxRetries))
  {
    assert Carries(a.p, s.sent);
    HandleFacts(r.t, if a.p.header.cid == 0 then r.self else a.call, a.p);
    if a.p.header.ns == |r.log| {
      TookIsTrue(s, r, a.p);
    }
    hide LogTrue, DistinctNumbers, Awaited, IsBody, IsStop, ClosesOnly, Handle, Carries;
  }

  lemma SpecialCounts(s: Node, r: Node, a: Action, maxRetries: nat)
    requires Direction(s, r) && Enabled(r, a) && a.ReceiveUnknownCall?
    requires Sound(s, Act(r, a, maxRetries).node)
    ensures Counts(s, r, Act(r, a, maxRetries))
  {
    assert Carries(a.p, s.sent);
    SpecialFacts(r.t, r.self, a.p);
    if a.p.header.ns == |r.log| {
      TookIsTrue(s, r, a.p);
    }
    assert r.log + [] == r.log;
    hide LogTrue, DistinctNumbers, Awaited, IsBody, IsStop, HandleSpecial, Carries;
  }

  lemma ReceiverActs(s: Node, r: Node, a: Action, maxRetries: nat)
    requires Direction(s, r) && Enabled(r, a)
    requires Sound(s, Act(r, a, maxRetries).node)
    ensures var e := Act(r, a, maxRetries);
            Direction(s.(inbox := s.inbox + e.out), e.node)
  {
    var e := Act(r, a, maxRetries);
    if a.Receive? {
      TakingCounts(s, r, a, maxRetries);
    } else if a.ReceiveUnknownCall? {
      SpecialCounts(s, r, a, maxRetries);
    } else {
      OthersCount(s, r, a, maxRetries);
    }
    hide Direction, Counts, Act, Enabled;
    CountsKeepsDirection(s, r, e);
  }

  lemma OthersCount(s: Node, r: Node, a: Action, maxRetries: nat)
    requires Direction(s, r) && Enabled(r, a) && !a.Receive? && !a.ReceiveUnknownCall?
    ensures Counts(s, r, Act(r, a, maxRetries))
  {
    hide LogTrue, Carries, DistinctNumbers, Awaited, IsBody, IsStop;
    if a.Timer? {
      assert r.queue[a.k] in r.queue;
    }
  }

  // ----- packets, counts and runs -----

  ghost predicate FormedEffect(e: Effect) {
    Formed(e.node) && forall p <- e.out :: WellFormed(p)
  }

  lemma SubmitFormed(n: Node, cid: u16, body: seq<byte>, maxRetries: nat)
    requires Formed(n) && IsBody(body)
    ensures FormedEffect(Submit(n, cid, body, maxRetries))
  {
    assert WellFormed(Numbered(n.t, cid, body));
    hide WellFormed, Numbered, Xmit;
  }

  lemma CloseFormed(n: Node, stop: seq<byte>, maxRetries: nat)
    requires Formed(n) && IsBody(stop)
    ensures FormedEffect(CloseTunnel(n, stop, maxRetries))
  {
    if !n.self.closing {
      SubmitFormed(n.(queue := [], self := n.self.(closeSs := n.t.seqNum)), n.self.cid, stop, maxRetries);
      hide Submit;
    }
  }

  lemma TimerFormed(n: Node, k: nat, stop: seq<byte>, maxRetries: nat)
    requires Formed(n) && Enabled(n, Timer(k, stop))
    ensures FormedEffect(Act(n, Timer(k, stop), maxRetries))
  {
    var n1 := n.(queue := n.queue[..k] + n.queue[k + 1..]);
    assert n.queue[k] in n.queue;
    assert Formed(n1);
    CloseFormed(NeedClose(n1), stop, maxRetries);
    hide WellFormed, CloseTunnel, Xmit;
  }

  lemma ActKeepsFormed(n: Node, a: Action, maxRetries: nat)
    requires Formed(n) && Enabled(n, a)
    ensures FormedEffect(Act(n, a, maxRetries))
  {
    hide Submit, CloseTunnel, Xmit, IsStop, ClosesOnly;
    match a {
      case Send(cid, body) => SubmitFormed(n, cid, body, maxRetries);
      case Close(stop) => CloseFormed(NeedClose(n), stop, maxRetries);
      case Receive(p, call, _, _, _) =>
        HandleFacts(n.t, if p.header.cid == 0 then n.self else call, p);
        hide Handle;
      case ReceiveUnknownCall(p) =>
        SpecialFacts(n.t, n.self, p);
        hide HandleSpecial;
      case Timer(k, stop) => TimerFormed(n, k, stop, maxRetries);
      case EchoRequest(_) =>
    }
  }

  /** Without skips the receiver only takes messages that were sent. */
  lemma ReceiverNotAhead(s: Node, r: Node, a: Action, maxRetries: nat)
    requires Direction(s, r) && Enabled(r, a) && |r.log| <= |s.sent|
    requires NoSkips(Act(r, a, maxRetries).node.log)
    ensures |Act(r, a, maxRetries).node.log| <= |s.sent|
  {
    hide LogTrue, DistinctNumbers, Awaited, IsBody, IsStop, ClosesOnly, Xmit, Numbered;
    var e := Act(r, a, maxRetries);
    match a {
      case Receive(p, call, _, _, _) =>
        assert Carries(p, s.sent);
        HandleFacts(r.t, if p.header.cid == 0 then r.self else call, p);
        hide Handle;
      case ReceiveUnknownCall(p) =>
        assert Carries(p, s.sent);
        SpecialFacts(r.t, r.self, p);
        hide HandleSpecial;
        if Phantom(r, p) && e.node.log != r.log {
          assert e.node.log[|r.log|] in e.node.log;
        }
      case _ =>
    }
  }

  lemma NoSkipsBefore(log: seq<Slot>, more: seq<Slot>)
    requires log <= more && NoSkips(more)
    ensures NoSkips(log)
  {
    forall x <- log ensures x.Took? {
      assert x in more;
    }
  }

  lemma StepNotAhead(s: System, me: Node, other: Node, a: Action, maxRetries: nat)
    requires Enabled(me, a) && NotAhead(me, other) && NotAhead(other, me)
    requires Sound(other, me) ==> Direction(other, me)
    ensures var n := Act(me, a, maxRetries).node; NotAhead(n, other) && NotAhead(other, n)
  {
    HistoryGrows(me, a, maxRetries);
    var n := Act(me, a, maxRetries).node;
    hide Direction, Enabled, Act;
    if |other.sent| < 0x1_0000 && NoSkips(n.log) {
      NoSkipsBefore(me.log, n.log);
      ReceiverNotAhead(other, me, a, maxRetries);
    }
  }

  lemma StepKeepsInv(s: System, step: Step, c: Setup)
    requires Inv(s) && c.maxRetries > 0 && Enabled(Actor(s, step), step.action)
    ensures Inv(Next(s, step, c))
  {
    var me, other := Actor(s, step), if step.byA then s.b else s.a;
    var e := Act(me, step.action, c.maxRetries);
    HistoryGrows(me, step.action, c.maxRetries);
    ActKeepsFormed(me, step.action, c.maxRetries);
    StepNotAhead(s, me, other, step.action, c.maxRetries);
    hide Direction, Enabled, Act, NotAhead, WellFormed;
    if Sound(e.node, other) {
      SenderActs(me, other, step.action, c.maxRetries);
    }
    if Sound(other, e.node) {
      ReceiverActs(other, me, step.action, c.maxRetries);
    }
    InboxNotAhead(e.node, other, e.out);
  }

  lemma InboxNotAhead(n: Node, other: Node, out: set<Packet>)
    requires NotAhead(n, other) && NotAhead(other, n)
    ensures var o := other.(inbox := other.inbox + out); NotAhead(n, o) && NotAhead(o, n)
  {
  }

  lemma InitInv(c: Setup)
    ensures Inv(Init(c))
  {
  }

  lemma {:induction false} RunKeepsInv(run: seq<Step>, c: Setup)
    requires Legal(run, c) && c.maxRetries > 0
    ensures Inv(Final(run, c))
    decreases |run|
  {
    hide Inv, Next, Enabled;
    if run != [] {
      RunKeepsInv(run[..|run| - 1], c);
      StepKeepsInv(Final(run[..|run| - 1], c), run[|run| - 1], c);
    } else {
      InitInv(c);
    }
  }

  // ----- our own closing message -----

  /** A tunnel sends at most one StopCCN, and while it waits for the acknowledgement of a
      closing message that message is the StopCCN. */
  ghost predicate Stops(n: Node) {
    && n.t.seqNum == Wrap(|n.sent|)
    && (!n.self.closing ==> forall b <- n.sent :: !IsStop(b))
    && (forall i, j :: 0 <= i < j < |n.sent| ==> !(IsStop(n.sent[i]) && IsStop(n.sent[j])))
    && (n.alive && n.self.needClose && n.self.closing && |n.sent| < 0x1_0000 ==>
          n.self.closeSs < |n.sent| && IsStop(n.sent[n.self.closeSs]))
  }

  lemma WrapNext(n: nat)
    ensures Wrap(Wrap(n) + 1) == Wrap(n + 1) && (n < 0x1_0000 ==> Wrap(n) == n)
  {
  }

  lemma SendKeepsStops(n: Node, cid: u16, body: seq<byte>, maxRetries: nat)
    requires Stops(n) && !IsStop(body)
    ensures Stops(Submit(n, cid, body, maxRetries).node)
  {
    WrapNext(|n.sent|);
    hide IsStop, Wrap, Xmit, Numbered;
    var m := Submit(n, cid, body, maxRetries).node;
    assert forall i :: 0 <= i < |n.sent| ==> m.sent[i] == n.sent[i];
    assert forall b <- m.sent :: b in n.sent || b == body;
  }

  lemma CloseKeepsStops(n: Node, stop: seq<byte>, maxRetries: nat)
    requires Stops(n) && IsStop(stop) && (n.self.closing ==> n.alive)
    ensures Stops(CloseTunnel(NeedClose(n), stop, maxRetries).node)
  {
    WrapNext(|n.sent|);
    hide IsStop, Wrap, Xmit, Numbered;
    var m := CloseTunnel(NeedClose(n), stop, maxRetries).node;
    if !n.self.closing {
      assert m.sent == n.sent + [stop];
      assert forall i :: 0 <= i < |n.sent| ==> n.sent[i] in n.sent && !IsStop(n.sent[i]);
    }
  }

  /** Flags as a handler may leave them. */
  lemma FlagsKeepStops(n: Node, t: TunnelView, self: CallView, log: seq<Slot>)
    requires Stops(n) && n.alive && Ready(n) && t.seqNum == n.t.seqNum && self.closeSs == n.self.closeSs
    requires (n.self.closing ==> self.closing) && (self.needClose && self.closing ==> n.self.closing)
    ensures Stops(n.(born := true, t := t, self := self, log := log))
    ensures Stops(n.(t := t, self := self, log := log))
  {
    hide IsStop, Wrap;
  }

  lemma TakeKeepsStops(n: Node, a: Action, maxRetries: nat)
    requires Stops(n) && Enabled(n, a) && a.Receive? && Formed(n)
    ensures Stops(Act(n, a, maxRetries).node)
  {
    HandleFacts(n.t, if a.p.header.cid == 0 then n.self else a.call, a.p);
    HandleFlags(n.t, n.self, a.p);
    hide IsStop, Wrap, Handle, Stops, Numbered;
    var m := Act(n, a, maxRetries).node;
    FlagsKeepStops(n, m.t, m.self, m.log);
  }

  lemma SpecialKeepsStops(n: Node, a: Action, maxRetries: nat)
    requires Stops(n) && Enabled(n, a) && a.ReceiveUnknownCall? && Formed(n)
    ensures Stops(Act(n, a, maxRetries).node)
  {
    SpecialFacts(n.t, n.self, a.p);
    SpecialFlags(n.t, n.self, a.p);
    hide IsStop, Wrap, HandleSpecial, Stops, Numbered;
    var m := Act(n, a, maxRetries).node;
    FlagsKeepStops(n, m.t, m.self, m.log);
  }

  lemma TimerKeepsStops(n: Node, k: nat, stop: seq<byte>, maxRetries: nat)
    requires Stops(n) && Enabled(n, Timer(k, stop))
    ensures Stops(Act(n, Timer(k, stop), maxRetries).node)
  {
    var n1 := n.(queue := n.queue[..k] + n.queue[k + 1..]);
    hide IsStop, Wrap, Xmit, CloseTunnel;
    assert Stops(n1);
    CloseKeepsStops(n1, stop, maxRetries);
  }

  lemma ActKeepsStops(n: Node, a: Action, maxRetries: nat)
    requires Stops(n) && Enabled(n, a) && Formed(n)
    ensures Stops(Act(n, a, maxRetries).node)
  {
    hide IsStop, Stops, Submit, CloseTunnel, Take, HandleSpecial, ClosesOnly, Formed;
    match a
    case Send(cid, body) => SendKeepsStops(n, cid, body, maxRetries);
    case Receive(_, _, _, _, _) => TakeKeepsStops(n, a, maxRetries);
    case ReceiveUnknownCall(_) => SpecialKeepsStops(n, a, maxRetries);
    case Timer(k, stop) => TimerKeepsStops(n, k, stop, maxRetries);
    case Close(stop) => CloseKeepsStops(n, stop, maxRetries);
    case EchoRequest(_) =>
  }

  lemma InboxKeepsStops(n: Node, out: set<Packet>)
    requires Stops(n)
    ensures Stops(n.(inbox := n.inbox + out))
  {
    hide IsStop, Wrap;
  }

  lemma {:induction false} RunKeepsStops(run: seq<Step>, c: Setup)
    requires Legal(run, c) && c.maxRetries > 0
    ensures var s := Final(run, c); Stops(s.a) && Stops(s.b)
    decreases |run|
  {
    if run != [] {
      var before, last := run[..|run| - 1], run[|run| - 1];
      RunKeepsStops(before, c);
      RunKeepsInv(before, c);
      var s := Final(before, c);
      assert Formed(Actor(s, last));
      hide Stops, Inv, Act, Enabled;
      ActKeepsStops(Actor(s, last), last.action, c.maxRetries);
      InboxKeepsStops(if last.byA then s.b else s.a, Act(Actor(s, last), last.action, c.maxRetries).out);
    }
  }

  // ----- main results -----

  lemma {:induction false} AcceptedAll(log: seq<Slot>, sent: seq<seq<byte>>)
    requires LogTrue(log, sent) && |log| <= |sent|
    ensures |Accepted(log)| <= |log|
    ensures Accepted(log) == sent[..|log|] <==> NoSkips(log)
  {
    if log != [] {
      var rest, last := log[..|log| - 1], log[|log| - 1];
      AcceptedAll(rest, sent);
      assert log == rest + [last] && sent[..|log|] == sent[..|rest|] + [sent[|rest|]];
      if Accepted(log) == sent[..|log|] {
        assert |Accepted(log)| == |log| && last.Took?;
        assert Accepted(rest) == Accepted(log)[..|rest|];
      }
    }
  }

  /** Everything numbered below the expected number was accepted, in order and once. */
  predicate Faithful(s: Node, r: Node) {
    r.t.recSeqNum == |r.log| <= |s.sent| && Accepted(r.log) == s.sent[..|r.log|]
  }

  /** Delivery is faithful in every run, in both directions, as long as fewer than 65,536
      numbers are used and none is used up by a zero-length body for an unknown call. */
  lemma ReliableDelivery(run: seq<Step>, c: Setup)
    requires Legal(run, c) && c.maxRetries > 0
    ensures var s := Final(run, c);
            && (|s.a.sent| < 0x1_0000 && NoSkips(s.b.log) ==> Faithful(s.a, s.b))
            && (|s.b.sent| < 0x1_0000 && NoSkips(s.a.log) ==> Faithful(s.b, s.a))
  {
    RunKeepsInv(run, c);
    var s := Final(run, c);
    hide Legal, Final;
    FaithfulIff(s.a, s.b);
    FaithfulIff(s.b, s.a);
  }

  lemma FaithfulIff(s: Node, r: Node)
    requires (Sound(s, r) ==> Direction(s, r)) && NotAhead(s, r)
    ensures |s.sent| < 0x1_0000 && NoSkips(r.log) ==> Faithful(s, r)
    ensures Sound(s, r) ==> (Faithful(s, r) <==> NoSkips(r.log))
  {
    if Sound(s, r) && |r.log| <= |s.sent| {
      AcceptedAll(r.log, s.sent);
    }
  }

  /** With fewer than 65,536 numbers used, delivery is faithful exactly when no number was
      used up that way. */
  lemma FaithfulUnlessSkipped(run: seq<Step>, c: Setup)
    requires Legal(run, c) && c.maxRetries > 0
    ensures var s := Final(run, c);
            && (Sound(s.a, s.b) ==> (Faithful(s.a, s.b) <==> NoSkips(s.b.log)))
            && (Sound(s.b, s.a) ==> (Faithful(s.b, s.a) <==> NoSkips(s.a.log)))
  {
    RunKeepsInv(run, c);
    var s := Final(run, c);
    hide Legal, Final;
    FaithfulIff(s.a, s.b);
    FaithfulIff(s.b, s.a);
  }

  function Me(s: System, byA: bool): Node {
    if byA then s.a else s.b
  }

  lemma {:induction false} Continues(run: seq<Step>, more: seq<Step>, c: Setup, byA: bool)
    requires Legal(run + more, c)
    ensures Legal(run, c) && Me(Final(run, c), byA).log <= Me(Final(run + more, c), byA).log
    decreases |more|
  {
    var all := run + more;
    if more == [] {
      assert all == run;
    } else {
      var fewer := more[..|more| - 1];
      assert all[..|all| - 1] == run + fewer;
      Continues(run, fewer, c, byA);
      var s, last := Final(run + fewer, c), all[|all| - 1];
      HistoryGrows(Actor(s, last), last.action, c.maxRetries);
      hide Act, Enabled;
    }
  }

  /** The message whose number was used up is accepted in no continuation: its place stays
      skipped, and what is accepted in other places are the messages of other numbers. */
  lemma SkippedIsLost(run: seq<Step>, more: seq<Step>, c: Setup, byA: bool, i: nat)
    requires Legal(run + more, c) && c.maxRetries > 0 && Legal(run, c)
    requires i < |Me(Final(run, c), byA).log| && Me(Final(run, c), byA).log[i] == Skipped
    ensures var s := Final(run + more, c);
            var r, peer := Me(s, byA), Me(s, !byA);
            && i < |r.log| && r.log[i] == Skipped
            && (Sound(peer, r) ==> forall j :: 0 <= j < |r.log| && r.log[j].Took? ==>
                  j != i && j < |peer.sent| && r.log[j].body == peer.sent[j])
  {
    Continues(run, more, c, byA);
    RunKeepsInv(run + more, c);
    hide Legal, Final;
  }

  /** Message number `ns` sits in exactly one queued retransmission. */
  ghost predicate QueuedOnce(queue: seq<Queued>, ns: int) {
    exists j :: 0 <= j < |queue| && queue[j].packet.header.ns == ns &&
      forall i :: 0 <= i < |queue| && i != j ==> queue[i].packet.header.ns != ns
  }

  /** Until its sender starts to close, a message whose number the peer still has to come to
      is queued for retransmission, in exactly one event and with its own body. */
  lemma UnacceptedIsQueued(run: seq<Step>, c: Setup, byA: bool, ns: nat)
    requires Legal(run, c) && c.maxRetries > 0
    ensures var s := Final(run, c);
            var me, peer := Me(s, byA), Me(s, !byA);
            Sound(me, peer) && me.alive && !me.self.closing && |peer.log| <= ns < |me.sent| ==>
              && QueuedOnce(me.queue, ns)
              && forall q <- me.queue :: q.packet.header.ns == ns ==> q.packet.body == me.sent[ns]
  {
    RunKeepsInv(run, c);
    var s := Final(run, c);
    var me, peer := Me(s, byA), Me(s, !byA);
    if Sound(me, peer) && me.alive && !me.self.closing && |peer.log| <= ns < |me.sent| {
      AwaitedIsQueuedOnce(me.queue, ns);
    }
  }

  lemma AwaitedIsQueuedOnce(queue: seq<Queued>, ns: int)
    requires Awaited(queue, ns) && DistinctNumbers(queue)
    ensures QueuedOnce(queue, ns)
  {
    var j :| 0 <= j < |queue| && queue[j].packet.header.ns == ns;
    forall i | 0 <= i < |queue| && i != j ensures queue[i].packet.header.ns != ns {
      if i < j {
        assert queue[i].packet.header.ns != queue[j].packet.header.ns;
      }
    }
  }

  /** A message is tossed as acknowledged only if the peer accepted that very message, or
      used up its number, although the recorded acknowledgement may go backwards. */
  lemma TossedWasAccepted(run: seq<Step>, c: Setup, byA: bool, k: nat)
    requires Legal(run, c) && c.maxRetries > 0
    requires var me, peer := Me(Final(run, c), byA), Me(Final(run, c), !byA);
             && Sound(me, peer) && k < |me.queue|
             && Xmit(me.queue[k].packet.header.ns, me.t.cLr, me.queue[k].retries, c.maxRetries) == Tossed
    ensures var me, peer := Me(Final(run, c), byA), Me(Final(run, c), !byA);
            var p := me.queue[k].packet;
            && p.header.ns < |peer.log|
            && (peer.log[p.header.ns] == Took(p.body) || peer.log[p.header.ns] == Skipped)
  {
    RunKeepsInv(run, c);
    var me := Me(Final(run, c), byA);
    assert me.queue[k] in me.queue;
  }

  /** A zero-length body that ends the wait for the acknowledgement of our StopCCN. */
  ghost predicate Confirms(run: seq<Step>, c: Setup, byA: bool, p: Packet) {
    && Legal(run, c) && c.maxRetries > 0
    && var me, peer := Me(Final(run, c), byA), Me(Final(run, c), !byA);
       && Sound(me, peer) && me.alive && Routed(me, p) && me.self.needClose && me.self.closing
       && p.header.cid == 0 && p.header.ns == me.t.recSeqNum && p.body == []
       && !Handle(me.t, me.self, p).c.needClose
  }

  /** What a confirmation tells: the closing message is the one StopCCN, the peer has come
      to it, and it has gone past it if the acknowledgement does. */
  lemma CloseConfirmed(run: seq<Step>, c: Setup, byA: bool, p: Packet)
    requires Confirms(run, c, byA, p)
    ensures var me, peer := Me(Final(run, c), byA), Me(Final(run, c), !byA);
            && me.self.closeSs < |me.sent| && IsStop(me.sent[me.self.closeSs])
            && me.self.closeSs <= p.header.nr <= |peer.log|
            && (p.header.nr > me.self.closeSs && NoSkips(peer.log) ==>
                  peer.log[me.self.closeSs] == Took(me.sent[me.self.closeSs]))
  {
    RunKeepsInv(run, c);
    RunKeepsStops(run, c);
    var me, peer := Me(Final(run, c), byA), Me(Final(run, c), !byA);
    assert Direction(me, peer) && Stops(me) && Formed(me);
    assert p in me.inbox;
    hide *;
    ConfirmedNodes(me, peer, p);
  }

  lemma ConfirmedNodes(me: Node, peer: Node, p: Packet)
    requires Direction(me, peer) && Stops(me) && Formed(me) && Sound(me, peer) && me.alive && p in me.inbox
    requires me.self.needClose && me.self.closing && p.header.ns == me.t.recSeqNum && p.body == []
    requires !Handle(me.t, me.self, p).c.needClose
    ensures me.self.closeSs < |me.sent| && IsStop(me.sent[me.self.closeSs])
    ensures me.self.closeSs <= p.header.nr <= |peer.log|
    ensures p.header.nr > me.self.closeSs && NoSkips(peer.log) ==>
              peer.log[me.self.closeSs] == Took(me.sent[me.self.closeSs])
  {
    assert p.header.nr >= me.self.closeSs by {
      hide Direction, Stops;
    }
    hide Handle, IsStop, Awaited, Carries, DistinctNumbers;
    if p.header.nr > me.self.closeSs && NoSkips(peer.log) {
      assert peer.log[me.self.closeSs] in peer.log;
    }
  }
}
