/** The daemon's records in place: the operations that close and destroy tunnels and calls,
    and the pass over all lists that runs before every wait for input. */
module MainLoop {
  import opened Words
  import opened Scheduler
  import opened Daemon
  import opened DaemonSafety
  import Endpoint

  // ----- what closing does to the flags -----

  predicate Pending(k: Call) {
    k.needclose != k.closing
  }

  function PendingCalls(s: State): set<nat> {
    set c | c in s.calls && Pending(s.calls[c])
  }

  /** Closing a call leaves the flags of all others alone. */
  predicate ClosedDown(s: State, r: State, c: nat) {
    && c in s.calls && r.calls.Keys <= s.calls.Keys
    && (forall d <- r.calls.Keys :: d != c ==> r.calls[d] == s.calls[d])
    && (c in r.calls ==> !s.calls[c].closing && r.calls[c].needclose == s.calls[c].needclose && r.calls[c].closing)
  }

  /** So the calls waiting to be closed become fewer. */
  lemma ClosedDownShrinks(s: State, r: State, c: nat)
    requires ClosedDown(s, r, c) && Pending(s.calls[c])
    ensures PendingCalls(r) < PendingCalls(s) && c !in PendingCalls(r)
  {
    assert c in PendingCalls(s) && c !in PendingCalls(r);
    forall d <- PendingCalls(r) ensures d in PendingCalls(s) {
    }
  }

  lemma CloseCallClosesDown(s: State, now: TimeVal, c: nat)
    requires c in s.calls && s.calls[c].tunnel in s.tunnels
    ensures ClosedDown(s, CloseCall(s, now, c), c)
  {
    if !s.calls[c].closing {
      var t := s.calls[c].tunnel;
      SendIs(s.(calls := s.calls[c := s.calls[c].(closeSs := s.tunnels[t].ns)]), now, t);
      hide Send;
    }
  }

  lemma DestroyTunnelCalls(s: State, now: TimeVal, t: nat)
    requires t in s.tunnels && TunnelLinked(s, t) && Destroyable(s, s.tunnels[t].calls)
    ensures DestroyTunnel(s, now, t).calls == s.calls - Members(s.tunnels[t].calls) - {s.tunnels[t].self}
  {
    var s1 := DestroyCalls(s, now, s.tunnels[t].calls);
    DestroyCallsKeeps(s, now, s.tunnels[t].calls);
    hide DestroyCalls, Destroyable, Members;
    var s2 := if t in s1.list then s1.(list := Remove(s1.list, t), count := s1.count - 1) else s1;
    RedialOnlyDials(s2, now, s1.tunnels[t].lac);
    hide Redial, Remove, OnlyDials;
  }

  lemma CloseTunnelClosesDown(s: State, now: TimeVal, t: nat)
    requires t in s.tunnels && TunnelLinked(s, t)
    ensures ClosedDown(s, CloseTunnel(s, now, t), s.tunnels[t].self)
  {
    var s0, self := Sweep(s, t), s.tunnels[t].self;
    var cs := s.tunnels[t].calls;
    if s.calls[self].closing {
      assert TunnelLinked(s0, t) && Destroyable(s0, cs);
      DestroyTunnelCalls(s0, now, t);
      hide DestroyTunnel, Sweep, TunnelLinked;
    } else {
      var k := s.calls[self].(closeSs := s.tunnels[t].ns);
      SendIs(s0.(calls := s0.calls[self := k]), now, t);
      var s1 := SendClosing(s0, now, self);
      assert s1.calls == s.calls[self := k];
      assert Destroyable(s1, cs);
      DestroyCallsKeeps(s1, now, cs);
      hide Send, SendClosing, DestroyCalls, Sweep, Destroyable;
    }
  }

  lemma CallCloseClosesDown(s: State, now: TimeVal, c: nat)
    requires Linked(s) && c in s.calls
    ensures ClosedDown(s, CallClose(s, now, c), c)
  {
    assert CallLinked(s, c) && TunnelLinked(s, s.calls[c].tunnel);
    hide CloseTunnel, CloseCall, Linked, ClosedDown;
    if c == s.tunnels[s.calls[c].tunnel].self {
      CloseTunnelClosesDown(s, now, s.calls[c].tunnel);
    } else {
      CloseCallClosesDown(s, now, c);
    }
  }

  /** No call of a tunnel is waiting to be closed. */
  predicate Quiet(s: State, t: nat) {
    forall c <- PendingCalls(s) :: s.calls[c].tunnel != t
  }

  lemma ClosedDownQuiet(s: State, r: State, c: nat)
    requires ClosedDown(s, r, c) && Pending(s.calls[c])
    ensures forall t :: Quiet(s, t) ==> Quiet(r, t)
  {
    ClosedDownShrinks(s, r, c);
    forall t | Quiet(s, t) ensures Quiet(r, t) {
      forall d <- PendingCalls(r) ensures r.calls[d].tunnel != t {
        assert d in PendingCalls(s) && d != c && r.calls[d] == s.calls[d];
      }
    }
  }

  /** One closing of the pass: of a call that waits for it. */
  ghost predicate Closing(a: State, now: TimeVal, c: nat, b: State) {
    Linked(a) && c in a.calls && Pending(a.calls[c]) && b == CallClose(a, now, c)
  }

  /** The states a pass goes through, from `s` to `r`. */
  ghost predicate Pass(s: State, now: TimeVal, closed: seq<nat>, trace: seq<State>, r: State) {
    && |trace| == |closed| + 1 && trace[0] == s && trace[|closed|] == r
    && forall k :: 0 <= k < |closed| ==> Closing(trace[k], now, closed[k], trace[k + 1])
  }

  lemma PassLonger(s: State, now: TimeVal, closed: seq<nat>, trace: seq<State>, a: State, c: nat, b: State)
    requires Pass(s, now, closed, trace, a) && Closing(a, now, c, b)
    ensures Pass(s, now, closed + [c], trace + [b], b)
  {
    hide Closing;
  }

  /** What the pass relies on when it closes a waiting call. */
  lemma ClosingEffect(s: State, now: TimeVal, c: nat)
    requires Inv(s, {}) && Linked(s) && c in s.calls && Pending(s.calls[c])
    ensures var r := CallClose(s, now, c);
            && Inv(r, {}) && Linked(r) && PendingCalls(r) < PendingCalls(s)
            && (forall t :: Quiet(s, t) ==> Quiet(r, t))
  {
    CallCloseKeeps(s, now, c, {});
    CallCloseClosesDown(s, now, c);
    var r := CallClose(s, now, c);
    assert Linked(r);
    hide Inv, Linked, CallClose, Quiet, PendingCalls, ClosedDown;
    ClosedDownShrinks(s, r, c);
    ClosedDownQuiet(s, r, c);
  }

  lemma CloseCallKeepsTunnels(s: State, now: TimeVal, c: nat)
    requires Linked(s) && c in s.calls && c != s.tunnels[s.calls[c].tunnel].self
    ensures var r := CallClose(s, now, c); r.list == s.list && SameSelves(s, r)
  {
    var t := s.calls[c].tunnel;
    assert CallLinked(s, c);
    hide Linked, CallLinked;
    if s.calls[c].closing {
      DestroyCallIs(s, now, c);
      hide DestroyCall, OnlyDials, Remove;
    } else {
      SendIs(s.(calls := s.calls[c := s.calls[c].(closeSs := s.tunnels[t].ns)]), now, t);
      hide Send;
    }
  }

  /** A tunnel is quiet when its list and its own record are. */
  lemma QuietTunnel(s: State, t: nat)
    requires Linked(s) && t in s.tunnels
    requires s.tunnels[t].self in s.calls && !Pending(s.calls[s.tunnels[t].self])
    requires forall c <- s.tunnels[t].calls :: c in s.calls && !Pending(s.calls[c])
    ensures Quiet(s, t)
  {
    forall c <- PendingCalls(s) ensures s.calls[c].tunnel != t {
      assert CallLinked(s, c);
    }
  }

  // ----- the two loops of the pass -----

  /** Since `o` only calls on the list of one tunnel were closed. */
  ghost predicate OnlyListed(o: State, s: State, t: nat) {
    && Inv(s, {}) && t in s.tunnels && s.list == o.list
    && PendingCalls(s) <= PendingCalls(o) && forall u :: Quiet(o, u) ==> Quiet(s, u)
  }

  /** The first `j` calls of a tunnel do not wait to be closed. */
  predicate Calm(s: State, t: nat, j: nat) {
    && t in s.tunnels && j <= |s.tunnels[t].calls|
    && forall c <- s.tunnels[t].calls[..j] :: c in s.calls && !Pending(s.calls[c])
  }

  lemma ListedStart(s: State, t: nat)
    requires Inv(s, {}) && t in s.tunnels
    ensures OnlyListed(s, s, t) && Calm(s, t, 0)
  {
    hide Inv;
  }

  lemma ListedCall(o: State, s: State, t: nat, j: nat)
    requires OnlyListed(o, s, t) && Calm(s, t, j) && j < |s.tunnels[t].calls|
    ensures var c := s.tunnels[t].calls[j];
            && Linked(s) && c in s.calls && s.calls[c].tunnel == t
            && c != s.tunnels[t].self
  {
    assert TunnelLinked(s, t) && s.tunnels[t].calls[j] in s.tunnels[t].calls;
  }

  lemma ListedClose(o: State, s: State, now: TimeVal, t: nat, c: nat)
    requires OnlyListed(o, s, t) && Linked(s) && c in s.calls && s.calls[c].tunnel == t && c != s.tunnels[t].self
    requires Pending(s.calls[c])
    ensures var r := CallClose(s, now, c);
            && OnlyListed(o, r, t) && Calm(r, t, 0) && PendingCalls(r) < PendingCalls(s) && Closing(s, now, c, r)
  {
    hide Inv, Linked, CallClose, Quiet, PendingCalls, Pending;
    ClosingEffect(s, now, c);
    CloseCallKeepsTunnels(s, now, c);
  }

  lemma ListedSkip(s: State, t: nat, j: nat)
    requires Calm(s, t, j) && j < |s.tunnels[t].calls| && s.tunnels[t].calls[j] in s.calls
    requires !Pending(s.calls[s.tunnels[t].calls[j]])
    ensures Calm(s, t, j + 1)
  {
    var cs := s.tunnels[t].calls;
    assert cs[..j + 1] == cs[..j] + [cs[j]];
  }

  /** The first `i` tunnels are quiet. */
  ghost predicate Passed(s: State, i: nat) {
    Inv(s, {}) && i <= |s.list| && forall t <- s.list[..i] :: Quiet(s, t)
  }

  lemma PassedTunnel(s: State, i: nat)
    requires Passed(s, i) && i < |s.list|
    ensures Inv(s, {}) && s.list[i] in s.tunnels
  {
    assert Linked(s) && s.list[i] in s.list;
  }

  lemma PassedListed(o: State, s: State, i: nat, t: nat)
    requires Passed(o, i) && OnlyListed(o, s, t)
    ensures Passed(s, i) && Linked(s) && s.tunnels[t].self in s.calls
  {
    assert TunnelLinked(s, t);
    hide Linked, Quiet, AllLive, Owned, Addressed, Handed;
  }

  lemma PassedNext(s: State, i: nat, t: nat)
    requires Passed(s, i) && Linked(s) && i < |s.list| && t == s.list[i] && t in s.tunnels
    requires Calm(s, t, |s.tunnels[t].calls|) && s.tunnels[t].self in s.calls && !Pending(s.calls[s.tunnels[t].self])
    ensures Passed(s, i + 1)
  {
    var cs := s.tunnels[t].calls;
    assert cs[..|cs|] == cs;
    QuietTunnel(s, t);
    hide Inv, Quiet, Pending;
    assert s.list[..i + 1] == s.list[..i] + [t];
  }

  lemma CalmBounds(s: State, t: nat)
    requires Calm(s, t, 0)
    ensures t in s.tunnels
  {
  }

  lemma ListedMeans(o: State, s: State, t: nat)
    requires OnlyListed(o, s, t)
    ensures s.list == o.list && PendingCalls(s) <= PendingCalls(o)
  {
    hide Inv, Quiet, PendingCalls;
  }

  lemma PassedClose(s: State, i: nat, now: TimeVal, c: nat)
    requires Passed(s, i) && Linked(s) && c in s.calls && Pending(s.calls[c])
    ensures var r := CallClose(s, now, c);
            Passed(r, 0) && PendingCalls(r) < PendingCalls(s) && Closing(s, now, c, r)
  {
    hide Inv, Linked, CallClose, Quiet, PendingCalls, Pending;
    ClosingEffect(s, now, c);
  }

  lemma PassStart(s: State, now: TimeVal)
    requires Inv(s, {})
    ensures Passed(s, 0) && Pass(s, now, [], [s], s)
  {
    hide Inv;
  }

  lemma PassedEnd(s: State)
    requires Passed(s, |s.list|)
    ensures Inv(s, {}) && PendingCalls(s) == {}
  {
    assert s.list[..|s.list|] == s.list;
    assert forall c <- s.calls.Keys :: CallLinked(s, c) && s.calls[c].tunnel in s.list && Quiet(s, s.calls[c].tunnel);
  }

  // ----- lemmas for the loops -----

  lemma {:induction false} SweptLast(events: seq<Entry<Work>>, n: nat, t: nat)
    requires n < |events|
    ensures Swept(events[..n + 1], t) == Swept(events[..n], t) + (if Of(events[n].data, t) then [] else [events[n]])
    ensures SweptBuffers(events[..n + 1], t) == SweptBuffers(events[..n], t) +
              (if Of(events[n].data, t) && events[n].data.Transmit? then [events[n].data.buf.id] else [])
    decreases |events|
  {
    hide Of;
    if n == 0 {
      assert events[..1][1..] == events[..0];
    } else {
      assert events[..n + 1][1..] == events[1..][..n] && events[..n][1..] == events[1..][..n - 1];
      SweptLast(events[1..], n - 1, t);
    }
  }

  lemma {:induction false} RemoveAt(s: seq<nat>, x: nat, k: nat)
    requires k < |s| && s[k] == x && x !in s[..k]
    ensures Remove(s, x) == s[..k] + s[k + 1..]
  {
    if k > 0 {
      assert s[0] == s[..k][0];
      assert s[1..][..k - 1] == s[..k][1..];
      RemoveAt(s[1..], x, k - 1);
      assert s[..k] + s[k + 1..] == [s[0]] + (s[1..][..k - 1] + s[1..][k..]);
    }
  }

  lemma {:induction false} RemoveNone(s: seq<nat>, x: nat)
    requires x !in s
    ensures Remove(s, x) == s
  {
    if s != [] {
      RemoveNone(s[1..], x);
    }
  }

  /** Unlink a node: walk to it and skip it. */
  method Detach(s: seq<nat>, x: nat) returns (r: seq<nat>, found: bool)
    ensures r == Remove(s, x) && (found <==> x in s)
  {
    var k := 0;
    while k < |s| && s[k] != x
      invariant k <= |s| && x !in s[..k]
    {
      k := k + 1;
    }
    if k < |s| {
      RemoveAt(s, x, k);
      return s[..k] + s[k + 1..], true;
    }
    assert s[..k] == s;
    RemoveNone(s, x);
    return s, false;
  }

  /** Walk the queue, dropping what belongs to a tunnel. */
  method Unqueue(events: seq<Entry<Work>>, t: nat) returns (kept: seq<Entry<Work>>, tossed: seq<nat>)
    ensures kept == Swept(events, t) && tossed == SweptBuffers(events, t)
  {
    kept, tossed := [], [];
    var n := 0;
    while n < |events|
      invariant n <= |events| && kept == Swept(events[..n], t) && tossed == SweptBuffers(events[..n], t)
    {
      SweptLast(events, n, t);
      hide Swept, SweptBuffers;
      var w := events[n].data;
      if !Of(w, t) {
        kept := kept + [events[n]];
      } else if w.Transmit? {
        tossed := tossed + [w.buf.id];
      }
      n := n + 1;
    }
    assert events[..n] == events;
  }

  lemma DestroyNext(s: State, now: TimeVal, cs: seq<nat>, i: nat)
    requires i < |cs| && Destroyable(s, cs[i..])
    ensures cs[i] in s.calls && s.calls[cs[i]].tunnel in s.tunnels
    ensures var s1 := DestroyCall(s, now, cs[i]);
            Destroyable(s1, cs[i + 1..]) && DestroyCalls(s, now, cs[i..]) == DestroyCalls(s1, now, cs[i + 1..])
  {
    assert cs[i] in cs[i..] && cs[i..][0] == cs[i] && cs[i..][1..] == cs[i + 1..];
    var s1 := DestroyCall(s, now, cs[i]);
    hide DestroyCall;
    forall c <- cs[i + 1..] ensures c in s1.calls && s1.calls[c].tunnel in s1.tunnels {
      assert c in cs[i..] && c != cs[i];
    }
    assert Distinct(cs[i + 1..]);
  }

  class Server {
    var list: seq<nat>
    var count: int
    var tunnels: map<nat, Tunnel>
    var calls: map<nat, Call>
    var lacs: map<int, Lac>
    var events: seq<Entry<Work>>
    var scheduled: nat
    var next: nat
    var nbuf: nat
    var freed: seq<nat>
    var used: set<u32>
    ghost var lost: set<u32>

    ghost function View(): State
      reads this
    {
      State(list, count, tunnels, calls, lacs, events, scheduled, next, nbuf, freed, used, lost)
    }

    constructor ()
      ensures View() == EMPTY
    {
      list, count, tunnels, calls, lacs, events, scheduled := [], 0, map[], map[], map[], [], 0;
      next, nbuf, freed, used, lost := 0, 0, [], {}, {};
    }

    method Later(now: TimeVal, sec: nat, w: Work)
      modifies this`events, this`scheduled
      ensures View() == Schedule(old(View()), now, sec, w)
    {
      events := Insert(events, Entry(Deadline(now, TimeVal(sec, 0)), scheduled, w));
      scheduled := scheduled + 1;
    }

    method RedialLater(now: TimeVal, lac: int)
      modifies this`events, this`scheduled, this`lacs
      ensures View() == Redial(old(View()), now, lac)
    {
      if lac in lacs && lacs[lac].active && lacs[lac].redial && lacs[lac].rtimeout > 0 && !lacs[lac].rsched {
        var sec := lacs[lac].rtimeout;
        lacs := lacs[lac := lacs[lac].(rsched := true)];
        Later(now, sec, Dial(lac));
      }
    }

    /** Deschedule everything a tunnel has queued, freeing the buffers. */
    method SweepEvents(t: nat)
      modifies this`events, this`freed
      ensures View() == Sweep(old(View()), t)
    {
      var kept, tossed := Unqueue(events, t);
      events, freed := kept, freed + tossed;
    }

    /** Number a new message and send it for the first time. */
    method SendNew(now: TimeVal, t: nat)
      requires t in tunnels
      modifies this`tunnels, this`nbuf, this`events, this`scheduled, this`freed
      ensures View() == Send(old(View()), now, t)
    {
      var r := tunnels[t];
      var b := nbuf;
      nbuf := nbuf + 1;
      tunnels := tunnels[t := r.(ns := (r.ns + 1) % 65536)];
      if r.ns < r.cLr {
        freed := freed + [b];
      } else {
        Later(now, 1, Transmit(Buf(b, t, r.ns, 1)));
      }
    }

    method Destroy(now: TimeVal, c: nat)
      requires c in calls && calls[c].tunnel in tunnels
      modifies this
      ensures View() == DestroyCall(old(View()), now, c)
    {
      var k := calls[c];
      if k.addr != 0 {
        used := used - {k.addr};
      }
      var r := tunnels[k.tunnel];
      var rest, found := Detach(r.calls, c);
      if found {
        tunnels := tunnels[k.tunnel := r.(calls := rest, count := r.count - 1)];
      }
      RedialLater(now, k.lac);
      calls := calls - {c};
    }

    method DestroyEach(now: TimeVal, cs: seq<nat>)
      requires Destroyable(View(), cs)
      modifies this
      ensures View() == DestroyCalls(old(View()), now, cs)
    {
      var i := 0;
      assert cs[0..] == cs;
      while i < |cs|
        invariant i <= |cs| && Destroyable(View(), cs[i..])
        invariant DestroyCalls(View(), now, cs[i..]) == DestroyCalls(old(View()), now, cs)
      {
        DestroyNext(View(), now, cs, i);
        hide Destroyable, DestroyCalls, DestroyCall;
        Destroy(now, cs[i]);
        i := i + 1;
      }
    }

    method DestroyWhole(now: TimeVal, t: nat)
      requires t in tunnels && TunnelLinked(View(), t) && Destroyable(View(), tunnels[t].calls)
      modifies this
      ensures View() == DestroyTunnel(old(View()), now, t)
    {
      DestroyCallsKeeps(View(), now, tunnels[t].calls);
      DestroyEach(now, tunnels[t].calls);
      BuryOne(now, t);
    }

    method BuryOne(now: TimeVal, t: nat)
      requires t in tunnels && tunnels[t].self in calls && calls[tunnels[t].self].tunnel in tunnels
      modifies this
      ensures View() == Bury(old(View()), now, t)
    {
      var self := tunnels[t].self;
      var rest, found := Detach(list, t);
      if found {
        list, count := rest, count - 1;
      }
      RedialLater(now, tunnels[t].lac);
      Destroy(now, self);
      tunnels := tunnels - {t};
    }

    method MarkFlags(c: nat, needclose: bool, closing: bool)
      requires c in calls
      modifies this`calls
      ensures View() == SetFlags(old(View()), c, needclose, closing)
    {
      calls := calls[c := calls[c].(needclose := needclose, closing := closing)];
    }

    method SendLast(now: TimeVal, c: nat)
      requires c in calls && calls[c].tunnel in tunnels
      modifies this
      ensures View() == SendClosing(old(View()), now, c)
    {
      var t := calls[c].tunnel;
      calls := calls[c := calls[c].(closeSs := tunnels[t].ns)];
      SendNew(now, t);
    }

    method CloseWhole(now: TimeVal, t: nat)
      requires t in tunnels && TunnelLinked(View(), t)
      modifies this
      ensures View() == CloseTunnel(old(View()), now, t)
    {
      ghost var s := View();
      var self, cs := tunnels[t].self, tunnels[t].calls;
      SweepEvents(t);
      if calls[self].closing {
        DestroyWhole(now, t);
      } else {
        SendLast(now, self);
        DestroyCallsKeeps(View(), now, cs);
        DestroyEach(now, cs);
        MarkFlags(self, calls[self].needclose, true);
      }
    }

    /** Close a call or, through its own record, a tunnel. */
    method CloseOne(now: TimeVal, c: nat)
      requires c in calls && Linked(View())
      modifies this
      ensures View() == CallClose(old(View()), now, c)
    {
      var t := calls[c].tunnel;
      assert CallLinked(View(), c) && TunnelLinked(View(), t);
      hide Linked, TunnelLinked, CloseTunnel;
      if c == tunnels[t].self {
        CloseWhole(now, t);
      } else if calls[c].closing {
        Destroy(now, c);
      } else {
        SendLast(now, c);
        MarkFlags(c, calls[c].needclose, true);
      }
    }

    /** Too many retries on a tunnel. */
    method MarkGivenUp(self: nat)
      requires self in calls
      modifies this`calls
      ensures View() == GiveUp(old(View()), self)
    {
      if calls[self].needclose {
        MarkFlags(self, false, true);
      } else {
        MarkFlags(self, true, calls[self].closing);
      }
    }

    method Abandon(now: TimeVal, b: Buf)
      requires b.tunnel in tunnels && TunnelLinked(View(), b.tunnel)
      modifies this
      ensures GiveUp(old(View()), old(tunnels[b.tunnel].self)).tunnels == old(tunnels)
      ensures TunnelLinked(GiveUp(old(View()), old(tunnels[b.tunnel].self)), b.tunnel)
      ensures View() == Toss(CloseTunnel(GiveUp(old(View()), old(tunnels[b.tunnel].self)), now, b.tunnel), b.id)
    {
      MarkGivenUp(tunnels[b.tunnel].self);
      assert TunnelLinked(View(), b.tunnel);
      hide CloseTunnel, GiveUp, TunnelLinked;
      CloseWhole(now, b.tunnel);
      freed := freed + [b.id];
    }

    /** A queued message comes up again. */
    method Retry(now: TimeVal, b: Buf, maxRetries: nat)
      requires Linked(View()) && b.tunnel in tunnels
      modifies this
      ensures View() == Retransmit(old(View()), now, b, maxRetries)
    {
      assert TunnelLinked(View(), b.tunnel);
      hide Linked, CloseTunnel, GiveUp, TunnelLinked;
      var cLr := tunnels[b.tunnel].cLr;
      if b.ns < cLr {
        freed := freed + [b.id];
      } else if b.retries + 1 > maxRetries {
        Abandon(now, b);
      } else {
        Later(now, Endpoint.Delay(b.retries + 1), Transmit(b.(retries := b.retries + 1)));
      }
    }

    /** Close what waits on the call list of a tunnel, starting over after each. */
    method CloseListed(now: TimeVal, t: nat, ghost s: State, ghost closed0: seq<nat>, ghost trace0: seq<State>)
      returns (ghost closed: seq<nat>, ghost trace: seq<State>)
      requires Inv(View(), {}) && t in tunnels && Pass(s, now, closed0, trace0, View())
      modifies this
      ensures OnlyListed(old(View()), View(), t) && t in tunnels && Calm(View(), t, |tunnels[t].calls|)
      ensures Pass(s, now, closed, trace, View())
    {
      hide Inv, OnlyListed, Calm, Pass, Linked, CallClose, Closing, PendingCalls;
      ghost var o := View();
      ListedStart(o, t);
      closed, trace := closed0, trace0;
      var j := 0;
      while j < |tunnels[t].calls|
        invariant t in tunnels && j <= |tunnels[t].calls|
        invariant OnlyListed(o, View(), t) && Calm(View(), t, j) && Pass(s, now, closed, trace, View())
        decreases PendingCalls(View()), |tunnels[t].calls| - j
      {
        ghost var a := View();
        ListedCall(o, a, t, j);
        var c := tunnels[t].calls[j];
        if calls[c].needclose != calls[c].closing {
          ListedClose(o, a, now, t, c);
          CloseOne(now, c);
          PassLonger(s, now, closed, trace, a, c, View());
          closed, trace := closed + [c], trace + [View()];
          CalmBounds(View(), t);
          j := 0;
        } else {
          ListedSkip(a, t, j);
          j := j + 1;
        }
      }
    }

    /** One tunnel of the pass: its calls, then itself; the pass starts over when it was closed. */
    method CloseTunnelListed(now: TimeVal, i: nat, ghost s: State, ghost closed0: seq<nat>, ghost trace0: seq<State>)
      returns (next: nat, ghost closed: seq<nat>, ghost trace: seq<State>)
      requires i < |list| && Passed(View(), i) && Pass(s, now, closed0, trace0, View())
      modifies this
      ensures next <= |list| && Passed(View(), next) && Pass(s, now, closed, trace, View())
      ensures || PendingCalls(View()) < PendingCalls(old(View()))
              || (PendingCalls(View()) <= PendingCalls(old(View())) && list == old(list) && next == i + 1)
    {
      hide Inv, OnlyListed, Calm, Pass, Linked, CallClose, Passed, Closing, Quiet, PendingCalls;
      ghost var o := View();
      PassedTunnel(o, i);
      var t := list[i];
      closed, trace := CloseListed(now, t, s, closed0, trace0);
      ghost var a := View();
      PassedListed(o, a, i, t);
      ListedMeans(o, a, t);
      var self := tunnels[t].self;
      if calls[self].needclose != calls[self].closing {
        PassedClose(a, i, now, self);
        CloseOne(now, self);
        PassLonger(s, now, closed, trace, a, self, View());
        closed, trace := closed + [self], trace + [View()];
        next := 0;
      } else {
        PassedNext(a, i, t);
        next := i + 1;
      }
    }

    /** The pass over all tunnels: it ends, closes only what waits to be closed, and leaves
        nothing waiting. */
    method BuildFdset(now: TimeVal) returns (ghost closed: seq<nat>, ghost trace: seq<State>)
      requires Inv(View(), {})
      modifies this
      ensures Inv(View(), {}) && PendingCalls(View()) == {}
      ensures Pass(old(View()), now, closed, trace, View())
    {
      ghost var s := View();
      closed, trace := [], [s];
      PassStart(s, now);
      hide *;
      var i: nat := 0;
      while i < |list|
        invariant i <= |list| && Passed(View(), i) && Pass(s, now, closed, trace, View())
        decreases PendingCalls(View()), |list| - i
      {
        i, closed, trace := CloseTunnelListed(now, i, s, closed, trace);
      }
      PassedEnd(View());
    }
  }
}
