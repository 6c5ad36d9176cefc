/** What every step of the daemon keeps: lists and counters agree, no event outlives its
    tunnel, every control buffer is queued or freed once, and no address is given twice. */
module DaemonSafety {
  import opened Words
  import opened Scheduler
  import opened Daemon
  import Endpoint

  // ----- the invariants -----

  /** Work still queued is for tunnels still listed. */
  predicate Live(s: State, w: Work) {
    match w
    case Transmit(b) => b.tunnel in s.tunnels
    case Hello(t) => t in s.tunnels
    case Dial(_) => true
  }

  predicate AllLive(s: State) {
    forall e <- s.events :: Live(s, e.data)
  }

  /** How often a buffer is queued. */
  function Copies(events: seq<Entry<Work>>, b: nat): nat {
    if events == [] then 0
    else (if events[0].data.Transmit? && events[0].data.buf.id == b then 1 else 0) + Copies(events[1..], b)
  }

  /** Each buffer ever made is queued, freed or in hand, exactly once. */
  ghost predicate Owned(s: State, held: set<nat>) {
    forall b: nat :: OwnedOnce(s, held, b)
  }

  predicate OwnedOnce(s: State, held: set<nat>, b: nat) {
    Copies(s.events, b) + multiset(s.freed)[b] + (if b in held then 1 else 0) == (if b < s.nbuf then 1 else 0)
  }

  /** The reserved addresses are those of the calls and those that are lost, and no two
      calls share one. */
  predicate Addressed(s: State) {
    && (forall c <- s.calls.Keys :: s.calls[c].addr != 0 ==> s.calls[c].addr in s.used - s.lost)
    && (forall x <- s.used :: x != 0 && (Holder(s, x) || x in s.lost)) && s.lost <= s.used
    && (forall c, d :: c in s.calls && d in s.calls && s.calls[c].addr == s.calls[d].addr != 0 ==> c == d)
  }

  predicate Holder(s: State, x: u32) {
    exists c :: c in s.calls && s.calls[c].addr == x
  }

  /** Handles are not used again. */
  predicate Handed(s: State) {
    (forall t <- s.tunnels.Keys :: t < s.next) && (forall c <- s.calls.Keys :: c < s.next)
  }

  ghost predicate Inv(s: State, held: set<nat>) {
    Linked(s) && AllLive(s) && Owned(s, held) && Addressed(s) && Handed(s)
  }

  // ----- the event queue -----

  lemma {:induction false} CopiesConcat(a: seq<Entry<Work>>, b: seq<Entry<Work>>, x: nat)
    ensures Copies(a + b, x) == Copies(a, x) + Copies(b, x)
    decreases |a|
  {
    if a == [] {
      assert a + b == b;
    } else {
      assert (a + b)[1..] == a[1..] + b;
      CopiesConcat(a[1..], b, x);
    }
  }

  predicate IsBuffer(w: Work, x: nat) {
    w.Transmit? && w.buf.id == x
  }

  lemma CopiesInsert(events: seq<Entry<Work>>, e: Entry<Work>, x: nat)
    ensures Copies(Insert(events, e), x) == Copies(events, x) + (if IsBuffer(e.data, x) then 1 else 0)
  {
    var k := Place(events, e.tv);
    var none: seq<Entry<Work>> := [];
    CopiesConcat(events[..k] + [e], events[k..], x);
    CopiesConcat(events[..k], [e], x);
    CopiesConcat(events[..k], events[k..], x);
    assert [e][1..] == none && events == events[..k] + events[k..];
  }

  /** Only dialling was added to the queue, and no buffer was made or freed. */
  ghost predicate OnlyDials(s: State, r: State) {
    && r.freed == s.freed && r.nbuf == s.nbuf && r.next == s.next
    && (forall e <- r.events :: e in s.events || e.data.Dial?)
    && forall b: nat :: Copies(r.events, b) == Copies(s.events, b)
  }

  lemma RedialOnlyDials(s: State, now: TimeVal, lac: int)
    ensures OnlyDials(s, Redial(s, now, lac))
    ensures Redial(s, now, lac).(events := s.events, scheduled := s.scheduled, lacs := s.lacs) == s
  {
    var r := Redial(s, now, lac);
    if r != s {
      var e := Entry(Deadline(now, TimeVal(s.lacs[lac].rtimeout, 0)), s.scheduled, Dial(lac));
      forall b: nat ensures Copies(r.events, b) == Copies(s.events, b) {
        CopiesInsert(s.events, e, b);
      }
      InsertKeepsEntries(s.events, e);
    }
  }

  // ----- destroying a call -----

  lemma {:induction false} RemoveIs(s: seq<nat>, x: nat)
    requires Distinct(s)
    ensures Distinct(Remove(s, x)) && (forall y :: y in Remove(s, x) <==> y in s && y != x)
    ensures |Remove(s, x)| == |s| - (if x in s then 1 else 0)
  {
    if s != [] {
      RemoveIs(s[1..], x);
      assert s == [s[0]] + s[1..] && s[0] !in s[1..];
    }
  }

  function Freed(s: State, x: u32): set<u32> {
    if x != 0 then s.used - {x} else s.used
  }

  lemma DestroyCallIs(s: State, now: TimeVal, c: nat)
    requires c in s.calls && s.calls[c].tunnel in s.tunnels
    ensures var r, t := DestroyCall(s, now, c), s.calls[c].tunnel;
            && OnlyDials(s, r) && r.list == s.list && r.count == s.count
            && r.used == Freed(s, s.calls[c].addr) && r.lost == s.lost
            && r.tunnels == if c in s.tunnels[t].calls
               then s.tunnels[t := s.tunnels[t].(calls := Remove(s.tunnels[t].calls, c),
                                                 count := s.tunnels[t].count - 1)]
               else s.tunnels
  {
    var s1 := Unlink(s.(used := Freed(s, s.calls[c].addr)), c);
    RedialOnlyDials(s1, now, s.calls[c].lac);
    hide Redial;
  }

  /** One call is unlinked from one tunnel and freed. */
  predicate Unlinked(s: State, r: State, t: nat, c: nat) {
    && t in s.tunnels && c in s.calls && s.calls[c].tunnel == t
    && r.list == s.list && r.count == s.count && r.calls == s.calls - {c}
    && r.tunnels == s.tunnels[t := s.tunnels[t].(calls := Remove(s.tunnels[t].calls, c),
                                                 count := s.tunnels[t].count - 1)]
  }

  lemma UnlinkedTunnel(s: State, r: State, t: nat, c: nat, u: nat)
    requires Unlinked(s, r, t, c) && u in s.tunnels && TunnelLinked(s, t) && TunnelLinked(s, u)
             && c in s.tunnels[t].calls
    ensures TunnelLinked(r, u)
  {
    RemoveIs(s.tunnels[t].calls, c);
    hide Remove, Distinct;
    if u != t {
      assert c !in s.tunnels[u].calls && c != s.tunnels[u].self;
    }
  }

  lemma UnlinkedCall(s: State, r: State, t: nat, c: nat, d: nat)
    requires Unlinked(s, r, t, c) && d in r.calls && CallLinked(s, d) && TunnelLinked(s, t)
    ensures CallLinked(r, d)
  {
    RemoveIs(s.tunnels[t].calls, c);
    hide Remove, Distinct;
  }

  lemma UnlinkedLinked(s: State, r: State, t: nat, c: nat)
    requires Linked(s) && Unlinked(s, r, t, c) && c in s.tunnels[t].calls
    ensures Linked(r)
  {
    hide Remove, Distinct, TunnelLinked, CallLinked;
    assert TunnelsLinked(r) by {
      forall u <- r.tunnels.Keys ensures TunnelLinked(r, u) {
        UnlinkedTunnel(s, r, t, c, u);
      }
    }
    assert CallsLinked(r) by {
      forall d <- r.calls.Keys ensures CallLinked(r, d) {
        UnlinkedCall(s, r, t, c, d);
      }
    }
  }

  lemma DestroyCallUnlinks(s: State, now: TimeVal, c: nat)
    requires c in s.calls && s.calls[c].tunnel in s.tunnels && c in s.tunnels[s.calls[c].tunnel].calls
    ensures Unlinked(s, DestroyCall(s, now, c), s.calls[c].tunnel, c)
  {
    DestroyCallIs(s, now, c);
    hide Redial, Remove, OnlyDials;
  }

  lemma DestroyCallLinked(s: State, now: TimeVal, c: nat)
    requires Linked(s) && c in s.calls && CallLinked(s, c) && c in s.tunnels[s.calls[c].tunnel].calls
    ensures Linked(DestroyCall(s, now, c))
  {
    DestroyCallUnlinks(s, now, c);
    hide Linked, Unlinked, DestroyCall;
    UnlinkedLinked(s, DestroyCall(s, now, c), s.calls[c].tunnel, c);
  }

  /** Addresses stay in order when a call and its address go together. */
  lemma DropAddressed(s: State, r: State, c: nat)
    requires Addressed(s) && c in s.calls && r.calls == s.calls - {c}
    requires r.used == Freed(s, s.calls[c].addr) && r.lost == s.lost
    ensures Addressed(r)
  {
    forall x <- r.used ensures x != 0 && (Holder(r, x) || x in r.lost) {
      if Holder(s, x) {
        var d :| d in s.calls && s.calls[d].addr == x;
        assert d in r.calls;
      }
    }
  }

  /** What survives when a listed call is destroyed. */
  lemma DestroyCallKeeps(s: State, now: TimeVal, c: nat, held: set<nat>)
    requires Inv(s, held) && c in s.calls && CallLinked(s, c) && c in s.tunnels[s.calls[c].tunnel].calls
    ensures var r := DestroyCall(s, now, c); Inv(r, held) && OnlyDials(s, r)
  {
    var r := DestroyCall(s, now, c);
    DestroyCallLinked(s, now, c);
    DestroyCallIs(s, now, c);
    DropAddressed(s, r, c);
    DialsKeep(s, r, held);
  }

  lemma DialsKeep(s: State, r: State, held: set<nat>)
    requires OnlyDials(s, r) && r.tunnels.Keys == s.tunnels.Keys && AllLive(s) && Owned(s, held)
    ensures AllLive(r) && Owned(r, held)
  {
    DialsOwned(s, r, held);
  }

  lemma DialsOwned(s: State, r: State, held: set<nat>)
    requires OnlyDials(s, r) && Owned(s, held)
    ensures Owned(r, held)
  {
    forall b: nat ensures OwnedOnce(r, held, b) {
      assert OwnedOnce(s, held, b);
    }
  }

  // ----- destroying a tunnel -----

  /** Only the calls of one tunnel went. */
  predicate OthersStay(s: State, r: State, t: nat) {
    && r.list == s.list && r.count == s.count && r.tunnels.Keys == s.tunnels.Keys
    && forall u <- s.tunnels.Keys :: u != t ==> r.tunnels[u] == s.tunnels[u]
  }

  lemma OnlyDialsTransitive(a: State, b: State, c: State)
    requires OnlyDials(a, b) && OnlyDials(b, c)
    ensures OnlyDials(a, c)
  {
  }

  lemma LinkedCall(s: State, t: nat, c: nat)
    requires Linked(s) && t in s.tunnels && c in s.tunnels[t].calls
    ensures TunnelLinked(s, t) && c in s.calls && s.calls[c].tunnel == t && CallLinked(s, c)
  {
  }

  lemma UnlinkedFirst(s: State, r: State, t: nat, c: nat)
    requires Unlinked(s, r, t, c) && s.tunnels[t].calls != [] && s.tunnels[t].calls[0] == c
    ensures OthersStay(s, r, t)
    ensures r.tunnels[t] == s.tunnels[t].(calls := s.tunnels[t].calls[1..], count := s.tunnels[t].count - 1)
  {
  }

  /** The first call of a tunnel goes. */
  lemma FirstCallGoes(s: State, now: TimeVal, t: nat, held: set<nat>)
    requires Inv(s, held) && t in s.tunnels && s.tunnels[t].calls != []
    ensures var cs := s.tunnels[t].calls;
            && cs[0] in s.calls && s.calls[cs[0]].tunnel == t
            && var r := DestroyCall(s, now, cs[0]);
               && Inv(r, held) && OnlyDials(s, r) && OthersStay(s, r, t)
               && t in r.tunnels && r.tunnels[t] == s.tunnels[t].(calls := cs[1..], count := s.tunnels[t].count - 1)
  {
    var c := s.tunnels[t].calls[0];
    assert Linked(s) && c in s.tunnels[t].calls;
    hide *;
    LinkedCall(s, t, c);
    DestroyCallKeeps(s, now, c, held);
    DestroyCallUnlinks(s, now, c);
    UnlinkedFirst(s, DestroyCall(s, now, c), t, c);
  }

  lemma CallsDestroyable(s: State, t: nat)
    requires Linked(s) && t in s.tunnels
    ensures TunnelLinked(s, t) && Destroyable(s, s.tunnels[t].calls)
  {
  }

  /** A tunnel has lost its calls and nothing else has changed. */
  ghost predicate Emptied(s: State, r: State, t: nat, held: set<nat>) {
    && t in s.tunnels && Inv(r, held) && OnlyDials(s, r) && OthersStay(s, r, t)
    && r.tunnels[t] == s.tunnels[t].(calls := [], count := 0)
  }

  lemma EmptiedStep(s: State, s1: State, r: State, t: nat, held: set<nat>)
    requires t in s.tunnels && OnlyDials(s, s1) && OthersStay(s, s1, t) && Emptied(s1, r, t, held)
    requires s1.tunnels[t] == s.tunnels[t].(calls := s1.tunnels[t].calls, count := s1.tunnels[t].count)
    ensures Emptied(s, r, t, held)
  {
    OnlyDialsTransitive(s, s1, r);
    hide Inv, OnlyDials;
  }

  lemma EmptiedNow(s: State, t: nat, held: set<nat>)
    requires Inv(s, held) && t in s.tunnels && s.tunnels[t].calls == []
    ensures Emptied(s, s, t, held)
  {
    assert TunnelLinked(s, t);
  }

  /** All calls of a tunnel are destroyed, first to last. */
  lemma {:induction false} DestroyCallsEmpties(s: State, now: TimeVal, t: nat, held: set<nat>)
    requires Inv(s, held) && t in s.tunnels && Destroyable(s, s.tunnels[t].calls)
    ensures Emptied(s, DestroyCalls(s, now, s.tunnels[t].calls), t, held)
    decreases |s.tunnels[t].calls|
  {
    var cs := s.tunnels[t].calls;
    if cs == [] {
      EmptiedNow(s, t, held);
    } else {
      var s1 := DestroyCall(s, now, cs[0]);
      FirstCallGoes(s, now, t, held);
      assert Linked(s1);
      CallsDestroyable(s1, t);
      hide Inv, OnlyDials, DestroyCall, OthersStay, Emptied, Destroyable, Linked, TunnelLinked;
      DestroyCallsEmpties(s1, now, t, held);
      EmptiedStep(s, s1, DestroyCalls(s1, now, cs[1..]), t, held);
    }
  }

  predicate NoneOf(events: seq<Entry<Work>>, t: nat) {
    forall e <- events :: !Of(e.data, t)
  }

  /** A tunnel without calls leaves the list and is freed with its own call record. */
  ghost predicate Gone(s: State, r: State, t: nat) {
    && t in s.tunnels && s.tunnels[t].self in s.calls
    && r.list == Remove(s.list, t) && r.count == s.count - 1 && r.tunnels == s.tunnels - {t}
    && r.calls == s.calls - {s.tunnels[t].self} && r.used == Freed(s, s.calls[s.tunnels[t].self].addr)
    && r.lost == s.lost && OnlyDials(s, r)
  }

  lemma GoneTunnel(s: State, r: State, t: nat, u: nat)
    requires Gone(s, r, t) && u in r.tunnels && TunnelLinked(s, u) && s.calls[s.tunnels[t].self].tunnel == t
    ensures TunnelLinked(r, u)
  {
    hide OnlyDials, Remove, Distinct;
    assert s.tunnels[t].self !in s.tunnels[u].calls;
  }

  lemma GoneCall(s: State, r: State, t: nat, d: nat)
    requires Gone(s, r, t) && d in r.calls && CallLinked(s, d) && s.tunnels[t].calls == []
    ensures CallLinked(r, d)
  {
    hide OnlyDials, Remove;
  }

  lemma GoneLinked(s: State, r: State, t: nat)
    requires Gone(s, r, t) && Linked(s) && s.tunnels[t].calls == []
    ensures Linked(r)
  {
    assert TunnelLinked(s, t);
    RemoveIs(s.list, t);
    hide OnlyDials, Remove, Distinct, TunnelLinked, CallLinked;
    assert ListLinked(r);
    assert TunnelsLinked(r) by {
      forall u <- r.tunnels.Keys ensures TunnelLinked(r, u) {
        GoneTunnel(s, r, t, u);
      }
    }
    assert CallsLinked(r) by {
      forall d <- r.calls.Keys ensures CallLinked(r, d) {
        GoneCall(s, r, t, d);
      }
    }
  }

  lemma GoneLive(s: State, r: State, t: nat)
    requires OnlyDials(s, r) && r.tunnels == s.tunnels - {t} && AllLive(s) && NoneOf(s.events, t)
    ensures AllLive(r)
  {
    forall e <- r.events ensures Live(r, e.data) {
      assert e in s.events || e.data.Dial?;
    }
  }

  lemma GoneHanded(s: State, r: State, t: nat)
    requires Gone(s, r, t) && Handed(s)
    ensures Handed(r)
  {
    hide Remove, Freed;
  }

  lemma GoneKeeps(s: State, r: State, t: nat, held: set<nat>)
    requires Gone(s, r, t) && Inv(s, held) && s.tunnels[t].calls == [] && NoneOf(s.events, t)
    ensures Inv(r, held) && OnlyDials(s, r) && r.tunnels.Keys == s.tunnels.Keys - {t}
  {
    hide Linked, Addressed, Remove, AllLive, Owned, Handed, OnlyDials, NoneOf, Freed;
    GoneLinked(s, r, t);
    GoneHanded(s, r, t);
    DropAddressed(s, r, s.tunnels[t].self);
    DialsOwned(s, r, held);
    GoneLive(s, r, t);
  }

  lemma BuryGone(s: State, now: TimeVal, t: nat)
    requires Linked(s) && t in s.tunnels && s.tunnels[t].calls == [] && TunnelLinked(s, t)
    ensures Gone(s, Bury(s, now, t), t)
  {
    var s1 := s.(list := Remove(s.list, t), count := s.count - 1);
    var s2 := Redial(s1, now, s.tunnels[t].lac);
    var self := s.tunnels[t].self;
    assert t in s.list && self in s.calls && s.calls[self].tunnel == t;
    RedialOnlyDials(s1, now, s.tunnels[t].lac);
    assert s2.tunnels == s.tunnels && s2.calls == s.calls && s2.used == s.used && s2.list == s1.list
        && s2.count == s1.count && s2.lost == s.lost;
    hide Redial, Remove, Linked, TunnelLinked;
    BuryWhole(s, s1, s2, now, t, self);
  }

  lemma BuryWhole(s: State, s1: State, s2: State, now: TimeVal, t: nat, self: nat)
    requires t in s.list && t in s.tunnels && self == s.tunnels[t].self && self in s.calls && s.calls[self].tunnel == t
    requires s.tunnels[t].calls == [] && s1 == s.(list := Remove(s.list, t), count := s.count - 1)
    requires s2 == Redial(s1, now, s.tunnels[t].lac) && OnlyDials(s1, s2)
    requires s2.tunnels == s.tunnels && s2.calls == s.calls && s2.used == s.used && s2.list == s1.list
             && s2.count == s1.count && s2.lost == s.lost
    ensures Gone(s, Bury(s, now, t), t)
  {
    hide Redial, Remove, OnlyDials, Freed;
    DestroyCallIs(s2, now, self);
    var s3 := DestroyCall(s2, now, self);
    var r := s3.(tunnels := s3.tunnels - {t});
    assert Bury(s, now, t) == r;
    hide DestroyCall, Bury;
    OnlyDialsTransitive(s1, s2, s3);
    DialsIgnoreLists(s, s1, s3, t);
    SameFreed(s, s2, s.calls[self].addr);
    assert Gone(s, r, t);
  }

  lemma SameFreed(s: State, r: State, x: u32)
    requires s.used == r.used
    ensures Freed(s, x) == Freed(r, x)
  {
  }

  lemma DialsIgnoreLists(s: State, s1: State, r: State, t: nat)
    requires OnlyDials(s1, r) && s1 == s.(list := s1.list, count := s1.count)
    ensures OnlyDials(s, r.(tunnels := r.tunnels - {t}))
  {
  }

  lemma EmptiedMeans(s: State, s1: State, t: nat, held: set<nat>)
    requires Emptied(s, s1, t, held) && NoneOf(s.events, t)
    ensures Inv(s1, held) && Linked(s1) && t in s1.tunnels && s1.tunnels[t].calls == [] && TunnelLinked(s1, t)
    ensures s1.tunnels.Keys == s.tunnels.Keys && OnlyDials(s, s1) && NoneOf(s1.events, t)
  {
    hide Owned, Addressed;
  }

  /** Destroying a tunnel none of whose events are queued. */
  lemma DestroyTunnelKeeps(s: State, now: TimeVal, t: nat, held: set<nat>)
    requires Inv(s, held) && t in s.tunnels && TunnelLinked(s, t) && Destroyable(s, s.tunnels[t].calls)
             && NoneOf(s.events, t)
    ensures var r := DestroyTunnel(s, now, t);
            Inv(r, held) && r.tunnels.Keys == s.tunnels.Keys - {t} && OnlyDials(s, r)
  {
    var s1 := DestroyCalls(s, now, s.tunnels[t].calls);
    DestroyCallsEmpties(s, now, t, held);
    EmptiedMeans(s, s1, t, held);
    hide *;
    BuryGone(s1, now, t);
    var r := DestroyTunnel(s, now, t);
    assert r == Bury(s1, now, t);
    GoneKeeps(s1, r, t, held);
    OnlyDialsTransitive(s, s1, r);
  }

  // ----- steps that leave the lists alone -----

  /** Lists, handles and addresses are as they were. */
  predicate SameLinks(s: State, r: State) {
    && r.list == s.list && r.count == s.count && r.used == s.used && r.lost == s.lost && r.next == s.next
    && r.tunnels.Keys == s.tunnels.Keys && r.calls.Keys == s.calls.Keys
    && (forall t <- s.tunnels.Keys :: SameTunnel(s.tunnels[t], r.tunnels[t]))
    && (forall c <- s.calls.Keys :: SameCall(s.calls[c], r.calls[c]))
  }

  predicate SameTunnel(a: Tunnel, b: Tunnel) {
    a.self == b.self && a.calls == b.calls && a.count == b.count
  }

  predicate SameCall(a: Call, b: Call) {
    a.tunnel == b.tunnel && a.addr == b.addr
  }

  lemma SameLinksLinked(s: State, r: State)
    requires SameLinks(s, r) && Linked(s)
    ensures Linked(r)
  {
    hide Distinct;
    assert ListLinked(r);
    forall t <- r.tunnels.Keys ensures TunnelLinked(r, t) {
      assert TunnelLinked(s, t) && SameTunnel(s.tunnels[t], r.tunnels[t]);
      assert forall c <- s.tunnels[t].calls :: SameCall(s.calls[c], r.calls[c]);
      assert SameCall(s.calls[s.tunnels[t].self], r.calls[s.tunnels[t].self]);
    }
    forall c <- r.calls.Keys ensures CallLinked(r, c) {
      assert CallLinked(s, c) && SameCall(s.calls[c], r.calls[c]);
      assert SameTunnel(s.tunnels[s.calls[c].tunnel], r.tunnels[s.calls[c].tunnel]);
    }
  }

  lemma SameLinksAddressed(s: State, r: State)
    requires SameLinks(s, r) && Addressed(s) && Handed(s)
    ensures Addressed(r) && Handed(r)
  {
    hide SameTunnel;
    assert forall c <- s.calls.Keys :: s.calls[c].addr == r.calls[c].addr;
    forall x <- r.used ensures x != 0 && (Holder(r, x) || x in r.lost) {
      if Holder(s, x) {
        var c :| c in s.calls && s.calls[c].addr == x;
        assert c in r.calls && r.calls[c].addr == x;
      }
    }
  }

  lemma SameLinksKeep(s: State, r: State, held: set<nat>, now: set<nat>)
    requires SameLinks(s, r) && Inv(s, held) && AllLive(r) && Owned(r, now)
    ensures Inv(r, now)
  {
    hide SameLinks, Linked, Addressed, AllLive, Owned, Handed;
    SameLinksLinked(s, r);
    SameLinksAddressed(s, r);
  }

  // ----- the queue and the buffers -----

  lemma TossOwned(s: State, id: nat, held: set<nat>)
    requires Owned(s, held) && id in held
    ensures Owned(Toss(s, id), held - {id})
  {
    forall b: nat ensures OwnedOnce(Toss(s, id), held - {id}, b) {
      assert OwnedOnce(s, held, b);
    }
  }

  lemma ScheduleOwned(s: State, now: TimeVal, sec: nat, w: Work, held: set<nat>)
    requires Owned(s, held) && (w.Transmit? ==> w.buf.id in held)
    ensures Owned(Schedule(s, now, sec, w), if w.Transmit? then held - {w.buf.id} else held)
  {
    var r := Schedule(s, now, sec, w);
    var rest := if w.Transmit? then held - {w.buf.id} else held;
    forall b: nat ensures OwnedOnce(r, rest, b) {
      assert OwnedOnce(s, held, b);
      CopiesInsert(s.events, Entry(Deadline(now, TimeVal(sec, 0)), s.scheduled, w), b);
      hide Insert;
    }
  }

  lemma ScheduleLive(s: State, now: TimeVal, sec: nat, w: Work)
    requires AllLive(s) && Live(s, w)
    ensures AllLive(Schedule(s, now, sec, w))
  {
    InsertKeepsEntries(s.events, Entry(Deadline(now, TimeVal(sec, 0)), s.scheduled, w));
    hide Insert;
  }

  lemma NewBufferOwned(s: State, r: State, held: set<nat>)
    requires Owned(s, held) && r.events == s.events && r.freed == s.freed && r.nbuf == s.nbuf + 1
    ensures Owned(r, held + {s.nbuf}) && s.nbuf !in held
  {
    assert OwnedOnce(s, held, s.nbuf);
    forall b: nat ensures OwnedOnce(r, held + {s.nbuf}, b) {
      assert OwnedOnce(s, held, b);
    }
  }

  lemma {:induction false} SweptIs(events: seq<Entry<Work>>, t: nat)
    ensures forall e :: e in Swept(events, t) <==> e in events && !Of(e.data, t)
  {
    if events != [] {
      SweptIs(events[1..], t);
      assert events == [events[0]] + events[1..];
    }
  }

  lemma {:induction false} SweptCounts(events: seq<Entry<Work>>, t: nat, b: nat)
    ensures Copies(events, b) == Copies(Swept(events, t), b) + multiset(SweptBuffers(events, t))[b]
  {
    if events != [] {
      SweptCounts(events[1..], t, b);
      var rest := Swept(events[1..], t);
      assert ([events[0]] + rest)[1..] == rest;
    }
  }

  lemma SweepKeeps(s: State, t: nat, held: set<nat>)
    requires Inv(s, held)
    ensures Inv(Sweep(s, t), held) && NoneOf(Sweep(s, t).events, t) && SameLinks(s, Sweep(s, t))
  {
    var r := Sweep(s, t);
    SweptIs(s.events, t);
    assert AllLive(r) && NoneOf(r.events, t) && SameLinks(s, r);
    forall b: nat ensures OwnedOnce(r, held, b) {
      assert OwnedOnce(s, held, b);
      SweptCounts(s.events, t, b);
    }
    hide Sweep, AllLive, SameLinks, OwnedOnce, Linked, Addressed, Handed;
    SameLinksKeep(s, r, held, held);
  }

  // ----- sending -----

  function FirstSending(s: State, t: nat): Work
    requires t in s.tunnels
  {
    Transmit(Buf(s.nbuf, t, s.tunnels[t].ns, 1))
  }

  /** The queue gained at most one entry. */
  predicate GainsOnly(s: State, r: State, w: Work) {
    forall e <- r.events :: e in s.events || e.data == w
  }

  lemma ScheduleGains(s: State, now: TimeVal, sec: nat, w: Work)
    ensures GainsOnly(s, Schedule(s, now, sec, w), w)
  {
    InsertKeepsEntries(s.events, Entry(Deadline(now, TimeVal(sec, 0)), s.scheduled, w));
    hide Insert;
  }

  lemma ScheduleKeeps(s: State, now: TimeVal, sec: nat, w: Work, held: set<nat>)
    requires Inv(s, held) && Live(s, w) && (w.Transmit? ==> w.buf.id in held)
    ensures var r := Schedule(s, now, sec, w);
            && Inv(r, if w.Transmit? then held - {w.buf.id} else held)
            && SameLinks(s, r) && GainsOnly(s, r, w)
  {
    var r := Schedule(s, now, sec, w);
    assert SameLinks(s, r);
    ScheduleOwned(s, now, sec, w, held);
    ScheduleLive(s, now, sec, w);
    ScheduleGains(s, now, sec, w);
    hide *;
    SameLinksKeep(s, r, held, if w.Transmit? then held - {w.buf.id} else held);
  }

  lemma TossKeeps(s: State, id: nat, held: set<nat>)
    requires Inv(s, held) && id in held
    ensures Inv(Toss(s, id), held - {id}) && SameLinks(s, Toss(s, id))
  {
    var r := Toss(s, id);
    assert SameLinks(s, r) && AllLive(r);
    TossOwned(s, id, held);
    hide *;
    SameLinksKeep(s, r, held, held - {id});
  }

  lemma SameEventsLive(s: State, r: State)
    requires AllLive(s) && r.events == s.events && r.tunnels.Keys == s.tunnels.Keys
    ensures AllLive(r)
  {
  }

  /** The next control message of a tunnel has a number and a buffer. */
  function Numbered(s: State, t: nat): (r: State)
    requires t in s.tunnels
    ensures SameLinks(s, r)
  {
    s.(tunnels := s.tunnels[t := s.tunnels[t].(ns := (s.tunnels[t].ns + 1) % 65536)], nbuf := s.nbuf + 1)
  }

  lemma NumberedKeeps(s: State, t: nat, held: set<nat>)
    requires Inv(s, held) && t in s.tunnels
    ensures Inv(Numbered(s, t), held + {s.nbuf}) && s.nbuf !in held
  {
    var r := Numbered(s, t);
    hide SameLinks, Linked, Addressed, Handed, AllLive, Owned;
    SameEventsLive(s, r);
    NewBufferOwned(s, r, held);
    hide *;
    SameLinksKeep(s, r, held, held + {s.nbuf});
  }

  lemma SameLinksTransitive(a: State, b: State, c: State)
    requires SameLinks(a, b) && SameLinks(b, c)
    ensures SameLinks(a, c)
  {
    forall t <- a.tunnels.Keys ensures SameTunnel(a.tunnels[t], c.tunnels[t]) {
      assert SameTunnel(a.tunnels[t], b.tunnels[t]) && SameTunnel(b.tunnels[t], c.tunnels[t]);
    }
    forall k <- a.calls.Keys ensures SameCall(a.calls[k], c.calls[k]) {
      assert SameCall(a.calls[k], b.calls[k]) && SameCall(b.calls[k], c.calls[k]);
    }
  }

  lemma SendIs(s: State, now: TimeVal, t: nat)
    requires t in s.tunnels
    ensures Send(s, now, t) == if s.tunnels[t].ns < s.tunnels[t].cLr then Toss(Numbered(s, t), s.nbuf)
                               else Schedule(Numbered(s, t), now, 1, FirstSending(s, t))
    ensures Live(Numbered(s, t), FirstSending(s, t)) && Send(s, now, t).calls == s.calls
  {
    hide Insert;
  }

  lemma SendKeeps(s: State, now: TimeVal, t: nat, held: set<nat>)
    requires Inv(s, held) && t in s.tunnels
    ensures var r := Send(s, now, t);
            && Inv(r, held) && SameLinks(s, r) && GainsOnly(s, r, FirstSending(s, t))
            && r.calls == s.calls
  {
    hide Inv, SameLinks, Live, Send;
    SendIs(s, now, t);
    NumberedKeeps(s, t, held);
    assert held + {s.nbuf} - {s.nbuf} == held;
    var s1, r := Numbered(s, t), Send(s, now, t);
    if s.tunnels[t].ns < s.tunnels[t].cLr {
      TossKeeps(s1, s.nbuf, held + {s.nbuf});
    } else {
      ScheduleKeeps(s1, now, 1, FirstSending(s, t), held + {s.nbuf});
    }
    SameLinksTransitive(s, s1, r);
  }

  /** Flags and the number of the closing message do not matter to the lists. */
  lemma FlagsKeep(s: State, c: nat, k: Call, held: set<nat>)
    requires Inv(s, held) && c in s.calls && SameCall(s.calls[c], k)
    ensures var r := s.(calls := s.calls[c := k]); Inv(r, held) && SameLinks(s, r)
  {
    var r := s.(calls := s.calls[c := k]);
    hide Linked, Addressed, Handed, AllLive, Owned;
    assert SameLinks(s, r);
    SameEventsLive(s, r);
    FlagsOwned(s, r, held);
    hide *;
    SameLinksKeep(s, r, held, held);
  }

  lemma FlagsOwned(s: State, r: State, held: set<nat>)
    requires Owned(s, held) && r.events == s.events && r.freed == s.freed && r.nbuf == s.nbuf
    ensures Owned(r, held)
  {
    forall b: nat ensures OwnedOnce(r, held, b) {
      assert OwnedOnce(s, held, b);
    }
  }

  // ----- closing -----

  lemma SetFlagsKeeps(s: State, c: nat, needclose: bool, closing: bool, held: set<nat>)
    requires Inv(s, held) && c in s.calls
    ensures var r := SetFlags(s, c, needclose, closing); Inv(r, held) && SameLinks(s, r)
  {
    hide Inv, SameLinks;
    FlagsKeep(s, c, s.calls[c].(needclose := needclose, closing := closing), held);
  }

  lemma SendClosingKeeps(s: State, now: TimeVal, c: nat, held: set<nat>)
    requires Inv(s, held) && c in s.calls && s.calls[c].tunnel in s.tunnels
    ensures var r := SendClosing(s, now, c);
            && Inv(r, held) && SameLinks(s, r) && GainsOnly(s, r, FirstSending(s, s.calls[c].tunnel))
            && r.calls == s.calls[c := s.calls[c].(closeSs := s.tunnels[s.calls[c].tunnel].ns)]
  {
    hide Inv, SameLinks, Send;
    var k := s.calls[c].(closeSs := s.tunnels[s.calls[c].tunnel].ns);
    var s1 := s.(calls := s.calls[c := k]);
    FlagsKeep(s, c, k, held);
    SendKeeps(s1, now, s.calls[c].tunnel, held);
    SameLinksTransitive(s, s1, SendClosing(s, now, c));
  }

  lemma CloseCallKeeps(s: State, now: TimeVal, c: nat, held: set<nat>)
    requires Inv(s, held) && c in s.calls && CallLinked(s, c) && c in s.tunnels[s.calls[c].tunnel].calls
    ensures Inv(CloseCall(s, now, c), held)
  {
    hide Inv, SameLinks, SendClosing, DestroyCall, SetFlags;
    if s.calls[c].closing {
      DestroyCallKeeps(s, now, c, held);
    } else {
      SendClosingKeeps(s, now, c, held);
      SetFlagsKeeps(SendClosing(s, now, c), c, s.calls[c].needclose, true, held);
    }
  }

  /** The only work queued for a tunnel is at most the given message. */
  predicate OnlyOf(s: State, t: nat, w: Work) {
    forall e <- s.events :: Of(e.data, t) ==> e.data == w
  }

  lemma OnlyOfGains(s: State, r: State, t: nat, w: Work)
    requires NoneOf(s.events, t) && GainsOnly(s, r, w)
    ensures OnlyOf(r, t, w)
  {
  }

  lemma OnlyOfDials(s: State, r: State, t: nat, w: Work)
    requires OnlyOf(s, t, w) && OnlyDials(s, r)
    ensures OnlyOf(r, t, w)
  {
  }

  lemma SameLinksAt(s: State, r: State, t: nat)
    requires SameLinks(s, r) && t in s.tunnels && TunnelLinked(s, t)
    ensures t in r.tunnels && r.tunnels[t].self == s.tunnels[t].self && r.tunnels[t].calls == s.tunnels[t].calls
            && TunnelLinked(r, t)
  {
    hide Distinct;
    assert SameTunnel(s.tunnels[t], r.tunnels[t]);
    assert SameCall(s.calls[s.tunnels[t].self], r.calls[s.tunnels[t].self]);
    forall c <- r.tunnels[t].calls ensures c in r.calls && r.calls[c].tunnel == t {
      assert SameCall(s.calls[c], r.calls[c]);
    }
  }

  /** The tunnel has been told to stop: its calls go, its own record stays. */
  lemma StopKeeps(s: State, now: TimeVal, t: nat, w: Work, held: set<nat>)
    requires Inv(s, held) && t in s.tunnels && OnlyOf(s, t, w) && Destroyable(s, s.tunnels[t].calls)
    ensures var r := DestroyCalls(s, now, s.tunnels[t].calls); Inv(r, held) && OnlyOf(r, t, w)
  {
    var r := DestroyCalls(s, now, s.tunnels[t].calls);
    DestroyCallsEmpties(s, now, t, held);
    assert OnlyDials(s, r) && Inv(r, held);
    OnlyOfDials(s, r, t, w);
  }

  /** After a tunnel is closed for the first time nothing but the closing message is queued
      for it; after it is closed again nothing is, and it is off the list. */
  lemma CloseTunnelKeeps(s: State, now: TimeVal, t: nat, held: set<nat>)
    requires Inv(s, held) && t in s.tunnels && TunnelLinked(s, t)
    ensures var r := CloseTunnel(s, now, t);
            && Inv(r, held)
            && (s.calls[s.tunnels[t].self].closing ==> t !in r.tunnels && NoneOf(r.events, t))
            && (!s.calls[s.tunnels[t].self].closing ==> OnlyOf(r, t, FirstSending(s, t)))
  {
    var s0, self := Sweep(s, t), s.tunnels[t].self;
    assert s0.calls == s.calls && s0.tunnels == s.tunnels && s0.nbuf == s.nbuf;
    SweepKeeps(s, t, held);
    hide Inv, Sweep, SameLinks;
    SameLinksAt(s, s0, t);
    hide TunnelLinked, NoneOf, OnlyOf;
    if s.calls[self].closing {
      CloseAgainKeeps(s, s0, now, t, held);
    } else {
      CloseFirstKeeps(s, s0, now, t, held);
    }
  }

  lemma CloseAgainKeeps(s: State, s0: State, now: TimeVal, t: nat, held: set<nat>)
    requires t in s.tunnels && TunnelLinked(s, t) && s0 == Sweep(s, t) && s.calls[s.tunnels[t].self].closing
    requires Inv(s0, held) && NoneOf(s0.events, t) && t in s0.tunnels && TunnelLinked(s0, t)
    ensures var r := CloseTunnel(s, now, t); Inv(r, held) && t !in r.tunnels && NoneOf(r.events, t)
  {
    var r := CloseTunnel(s, now, t);
    assert r == DestroyTunnel(s0, now, t);
    hide Inv, Sweep, CloseTunnel;
    DestroyTunnelKeeps(s0, now, t, held);
    assert NoneOf(r.events, t);
  }

  lemma CloseFirstKeeps(s: State, s0: State, now: TimeVal, t: nat, held: set<nat>)
    requires t in s.tunnels && TunnelLinked(s, t) && s0 == Sweep(s, t) && !s.calls[s.tunnels[t].self].closing
    requires Inv(s0, held) && NoneOf(s0.events, t) && t in s0.tunnels && TunnelLinked(s0, t)
    requires s0.calls == s.calls && s0.tunnels == s.tunnels && s0.nbuf == s.nbuf
    ensures var r := CloseTunnel(s, now, t); Inv(r, held) && OnlyOf(r, t, FirstSending(s, t))
  {
    var self := s.tunnels[t].self;
    var s1 := SendClosing(s0, now, self);
    SendClosingKeeps(s0, now, self, held);
    SameLinksAt(s0, s1, t);
    OnlyOfGains(s0, s1, t, FirstSending(s, t));
    assert Destroyable(s1, s1.tunnels[t].calls);
    var s2 := DestroyCalls(s1, now, s1.tunnels[t].calls);
    DestroyCallsKeeps(s1, now, s1.tunnels[t].calls);
    assert self in s2.calls;
    assert CloseTunnel(s, now, t) == SetFlags(s2, self, s.calls[self].needclose, true);
    hide *;
    StopKeeps(s1, now, t, FirstSending(s, t), held);
    SetFlagsKeeps(s2, self, s.calls[self].needclose, true, held);
    FlagsOnlyOf(s2, self, s.calls[self].needclose, true, t, FirstSending(s, t));
  }

  lemma FlagsOnlyOf(s: State, c: nat, needclose: bool, closing: bool, t: nat, w: Work)
    requires c in s.calls && OnlyOf(s, t, w)
    ensures OnlyOf(SetFlags(s, c, needclose, closing), t, w)
  {
  }

  lemma CallCloseKeeps(s: State, now: TimeVal, c: nat, held: set<nat>)
    requires Inv(s, held) && c in s.calls && Linked(s)
    ensures Inv(CallClose(s, now, c), held)
  {
    assert CallLinked(s, c) && TunnelLinked(s, s.calls[c].tunnel);
    hide Inv, CloseTunnel, CloseCall, Linked, TunnelLinked, CallLinked;
    if c == s.tunnels[s.calls[c].tunnel].self {
      CloseTunnelKeeps(s, now, s.calls[c].tunnel, held);
    } else {
      CloseCallKeeps(s, now, c, held);
    }
  }

  // ----- timers -----

  lemma RetransmitKeeps(s: State, now: TimeVal, b: Buf, maxRetries: nat, held: set<nat>)
    requires Inv(s, held) && Linked(s) && b.tunnel in s.tunnels && b.id in held
    ensures Inv(Retransmit(s, now, b, maxRetries), held - {b.id})
  {
    var self := s.tunnels[b.tunnel].self;
    assert TunnelLinked(s, b.tunnel);
    hide Inv, Linked, CloseTunnel, Endpoint.Delay, Schedule, Toss;
    match Endpoint.Xmit(b.ns, s.tunnels[b.tunnel].cLr, b.retries, maxRetries)
    case Tossed => TossKeeps(s, b.id, held);
    case Sent(delay) => ScheduleKeeps(s, now, delay, Transmit(b.(retries := b.retries + 1)), held);
    case GivenUp =>
      GiveUpKeeps(s, self, held);
      SameLinksAt(s, GiveUp(s, self), b.tunnel);
      hide GiveUp;
      CloseTunnelKeeps(GiveUp(s, self), now, b.tunnel, held);
      TossKeeps(CloseTunnel(GiveUp(s, self), now, b.tunnel), b.id, held);
  }

  lemma GiveUpKeeps(s: State, self: nat, held: set<nat>)
    requires Inv(s, held) && self in s.calls
    ensures Inv(GiveUp(s, self), held) && SameLinks(s, GiveUp(s, self))
  {
    hide Inv, SetFlags, SameLinks;
    SetFlagsKeeps(s, self, false, true, held);
    SetFlagsKeeps(s, self, true, s.calls[self].closing, held);
  }

  lemma SayHelloKeeps(s: State, now: TimeVal, t: nat, held: set<nat>)
    requires Inv(s, held) && t in s.tunnels
    ensures Inv(SayHello(s, now, t), held)
  {
    SendKeeps(s, now, t, held);
    assert t in Send(s, now, t).tunnels;
    hide Inv, Send, SameLinks;
    ScheduleKeeps(Send(s, now, t), now, HELLO_DELAY, Hello(t), held);
  }
}
