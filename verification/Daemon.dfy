/** The records the daemon keeps: tunnels and calls on linked lists, queued events,
    control buffers and assigned addresses. A record is named by a handle; freeing it
    takes the handle out of its map, so a precondition `h in m` says that the record
    has not been freed. */
module Daemon {
  import opened Words
  import opened Scheduler
  import Endpoint

  const HELLO_DELAY := 60

  /** A numbered control message waiting to be acknowledged. */
  datatype Buf = Buf(id: nat, tunnel: nat, ns: u16, retries: nat)

  datatype Work = Transmit(buf: Buf) | Hello(tunnel: nat) | Dial(lac: int)

  datatype Call = Call(tunnel: nat, needclose: bool, closing: bool, closeSs: u16, addr: u32, lac: int)

  datatype Tunnel = Tunnel(self: nat, calls: seq<nat>, count: int, ns: u16, cLr: u16, lac: int)

  datatype Lac = Lac(active: bool, redial: bool, rtimeout: int, rsched: bool)

  /** `freed` lists the buffers freed, and `lost` the addresses taken from a call without
      being given back; both are kept for the record only. */
  datatype State = State(
    list: seq<nat>, count: int,
    tunnels: map<nat, Tunnel>, calls: map<nat, Call>, lacs: map<int, Lac>,
    events: seq<Entry<Work>>, scheduled: nat,
    next: nat, nbuf: nat, freed: seq<nat>, used: set<u32>, lost: set<u32>)

  const EMPTY := State([], 0, map[], map[], map[], [], 0, 0, 0, [], {}, {})

  // ----- lists -----

  predicate Distinct(s: seq<nat>) {
    forall i, j :: 0 <= i < j < |s| ==> s[i] != s[j]
  }

  /** Unlink the first node that is `x`. */
  function Remove(s: seq<nat>, x: nat): seq<nat> {
    if s == [] then [] else if s[0] == x then s[1..] else [s[0]] + Remove(s[1..], x)
  }

  // ----- events and buffers -----

  function Schedule(s: State, now: TimeVal, sec: nat, w: Work): State {
    s.(events := Insert(s.events, Entry(Deadline(now, TimeVal(sec, 0)), s.scheduled, w)), scheduled := s.scheduled + 1)
  }

  function Toss(s: State, id: nat): State {
    s.(freed := s.freed + [id])
  }

  /** An event of a tunnel: a Hello to send on it or a message to retransmit. */
  predicate Of(w: Work, t: nat) {
    (w.Transmit? && w.buf.tunnel == t) || (w.Hello? && w.tunnel == t)
  }

  function Swept(events: seq<Entry<Work>>, t: nat): seq<Entry<Work>> {
    if events == [] then []
    else if Of(events[0].data, t) then Swept(events[1..], t)
    else [events[0]] + Swept(events[1..], t)
  }

  function SweptBuffers(events: seq<Entry<Work>>, t: nat): seq<nat> {
    if events == [] then []
    else if Of(events[0].data, t) && events[0].data.Transmit? then
      [events[0].data.buf.id] + SweptBuffers(events[1..], t)
    else SweptBuffers(events[1..], t)
  }

  function Sweep(s: State, t: nat): State {
    s.(events := Swept(s.events, t), freed := s.freed + SweptBuffers(s.events, t))
  }

  /** A new control message is numbered and sent for the first time. */
  function Send(s: State, now: TimeVal, t: nat): State
    requires t in s.tunnels
  {
    var r := s.tunnels[t];
    var s1 := s.(tunnels := s.tunnels[t := r.(ns := (r.ns + 1) % 65536)], nbuf := s.nbuf + 1);
    if r.ns < r.cLr then Toss(s1, s.nbuf) else Schedule(s1, now, 1, Transmit(Buf(s.nbuf, t, r.ns, 1)))
  }

  // ----- destruction -----

  /** A dialled connection that went down is tried again later. */
  function Redial(s: State, now: TimeVal, lac: int): State {
    if lac in s.lacs && s.lacs[lac].active && s.lacs[lac].redial && s.lacs[lac].rtimeout > 0 && !s.lacs[lac].rsched
    then Schedule(s.(lacs := s.lacs[lac := s.lacs[lac].(rsched := true)]), now, s.lacs[lac].rtimeout, Dial(lac))
    else s
  }

  function Unlink(s: State, c: nat): State
    requires c in s.calls && s.calls[c].tunnel in s.tunnels
  {
    var t := s.calls[c].tunnel;
    var r := s.tunnels[t];
    if c in r.calls then s.(tunnels := s.tunnels[t := r.(calls := Remove(r.calls, c), count := r.count - 1)]) else s
  }

  function DestroyCall(s: State, now: TimeVal, c: nat): (r: State)
    requires c in s.calls && s.calls[c].tunnel in s.tunnels
    ensures r.calls == s.calls - {c} && r.tunnels.Keys == s.tunnels.Keys
  {
    var s1 := Unlink(if s.calls[c].addr != 0 then s.(used := s.used - {s.calls[c].addr}) else s, c);
    var s2 := Redial(s1, now, s.calls[c].lac);
    s2.(calls := s2.calls - {c})
  }

  predicate Destroyable(s: State, cs: seq<nat>) {
    Distinct(cs) && forall c <- cs :: c in s.calls && s.calls[c].tunnel in s.tunnels
  }

  function DestroyCalls(s: State, now: TimeVal, cs: seq<nat>): State
    requires Destroyable(s, cs)
    decreases |cs|
  {
    if cs == [] then s else DestroyCalls(DestroyCall(s, now, cs[0]), now, cs[1..])
  }

  /** The tunnel leaves the list; its own call record goes last. */
  function Bury(s: State, now: TimeVal, t: nat): State
    requires t in s.tunnels && s.tunnels[t].self in s.calls && s.calls[s.tunnels[t].self].tunnel in s.tunnels
  {
    var s1 := if t in s.list then s.(list := Remove(s.list, t), count := s.count - 1) else s;
    var s2 := DestroyCall(Redial(s1, now, s.tunnels[t].lac), now, s.tunnels[t].self);
    s2.(tunnels := s2.tunnels - {t})
  }

  function DestroyTunnel(s: State, now: TimeVal, t: nat): State
    requires t in s.tunnels && Destroyable(s, s.tunnels[t].calls)
    requires s.tunnels[t].self in s.calls && s.calls[s.tunnels[t].self].tunnel == t
             && s.tunnels[t].self !in s.tunnels[t].calls
  {
    DestroyCallsKeeps(s, now, s.tunnels[t].calls);
    Bury(DestroyCalls(s, now, s.tunnels[t].calls), now, t)
  }

  /** The handles of a list. */
  function Members(cs: seq<nat>): set<nat> {
    set c | c in cs
  }

  predicate SameSelves(s: State, r: State) {
    r.tunnels.Keys == s.tunnels.Keys && forall t <- s.tunnels.Keys :: r.tunnels[t].self == s.tunnels[t].self
  }

  lemma {:induction false} DestroyCallsKeeps(s: State, now: TimeVal, cs: seq<nat>)
    requires Destroyable(s, cs)
    ensures var r := DestroyCalls(s, now, cs); SameSelves(s, r) && r.calls == s.calls - Members(cs)
    decreases |cs|
  {
    if cs == [] {
      assert Members(cs) == {};
    } else {
      var s1 := DestroyCall(s, now, cs[0]);
      assert SameSelves(s, s1) && Destroyable(s1, cs[1..]);
      assert Members(cs) == {cs[0]} + Members(cs[1..]);
      hide DestroyCall, Destroyable, Members;
      DestroyCallsKeeps(s1, now, cs[1..]);
    }
  }

  // ----- closing -----

  /** Every list holds what is allocated, once, and every counter is the length of its list. */
  predicate Linked(s: State) {
    ListLinked(s) && TunnelsLinked(s) && CallsLinked(s)
  }

  predicate ListLinked(s: State) {
    && Distinct(s.list) && s.count == |s.list|
    && (forall t <- s.list :: t in s.tunnels)
    && (forall t <- s.tunnels.Keys :: t in s.list)
  }

  predicate TunnelsLinked(s: State) {
    forall t <- s.tunnels.Keys :: TunnelLinked(s, t)
  }

  predicate CallsLinked(s: State) {
    forall c <- s.calls.Keys :: CallLinked(s, c)
  }

  predicate TunnelLinked(s: State, t: nat)
    requires t in s.tunnels
  {
    var r := s.tunnels[t];
    && r.self in s.calls && s.calls[r.self].tunnel == t && r.self !in r.calls
    && Distinct(r.calls) && r.count == |r.calls|
    && forall c <- r.calls :: c in s.calls && s.calls[c].tunnel == t
  }

  predicate CallLinked(s: State, c: nat)
    requires c in s.calls
  {
    var t := s.calls[c].tunnel;
    t in s.tunnels && (c == s.tunnels[t].self || c in s.tunnels[t].calls)
  }

  function SetFlags(s: State, c: nat, needclose: bool, closing: bool): State
    requires c in s.calls
  {
    s.(calls := s.calls[c := s.calls[c].(needclose := needclose, closing := closing)])
  }

  /** Note the number of the closing message, and send it. */
  function SendClosing(s: State, now: TimeVal, c: nat): State
    requires c in s.calls && s.calls[c].tunnel in s.tunnels
  {
    var t := s.calls[c].tunnel;
    Send(s.(calls := s.calls[c := s.calls[c].(closeSs := s.tunnels[t].ns)]), now, t)
  }

  function CloseCall(s: State, now: TimeVal, c: nat): State
    requires c in s.calls && s.calls[c].tunnel in s.tunnels
  {
    if s.calls[c].closing then DestroyCall(s, now, c)
    else SetFlags(SendClosing(s, now, c), c, s.calls[c].needclose, true)
  }

  /** Closing a tunnel stops its traffic, tells the peer and drops the calls; closing it
      again destroys it. */
  function CloseTunnel(s: State, now: TimeVal, t: nat): State
    requires t in s.tunnels && TunnelLinked(s, t)
  {
    var s0 := Sweep(s, t);
    var self := s.tunnels[t].self;
    if s.calls[self].closing then DestroyTunnel(s0, now, t)
    else
      var s1 := SendClosing(s0, now, self);
      var s2 := DestroyCalls(s1, now, s.tunnels[t].calls);
      DestroyCallsKeeps(s1, now, s.tunnels[t].calls);
      SetFlags(s2, self, s.calls[self].needclose, true)
  }

  function CallClose(s: State, now: TimeVal, c: nat): State
    requires Linked(s) && c in s.calls
  {
    var t := s.calls[c].tunnel;
    assert CallLinked(s, c) && TunnelLinked(s, t);
    if c == s.tunnels[t].self then CloseTunnel(s, now, t) else CloseCall(s, now, c)
  }

  // ----- timers -----

  /** A queued message comes up again: acknowledged, given up, or sent once more. */
  function Retransmit(s: State, now: TimeVal, b: Buf, maxRetries: nat): State
    requires Linked(s) && b.tunnel in s.tunnels
  {
    var r := s.tunnels[b.tunnel];
    assert TunnelLinked(s, b.tunnel);
    match Endpoint.Xmit(b.ns, r.cLr, b.retries, maxRetries)
    case Tossed => Toss(s, b.id)
    case GivenUp => Toss(CloseTunnel(GiveUp(s, r.self), now, b.tunnel), b.id)
    case Sent(delay) => Schedule(s, now, delay, Transmit(b.(retries := b.retries + 1)))
  }

  /** Too many retries: close the tunnel, or be done with it when it is closing. */
  function GiveUp(s: State, self: nat): State
    requires self in s.calls
  {
    if s.calls[self].needclose then SetFlags(s, self, false, true)
    else SetFlags(s, self, true, s.calls[self].closing)
  }

  function SayHello(s: State, now: TimeVal, t: nat): State
    requires t in s.tunnels
  {
    Schedule(Send(s, now, t), now, HELLO_DELAY, Hello(t))
  }
}
