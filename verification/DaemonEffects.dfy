/** What the steps of the daemon get done, beside keeping its invariants: what is queued, for
    when, what is freed, and what a close leaves behind. */
module DaemonEffects {
  import opened Words
  import opened Scheduler
  import opened Daemon
  import opened DaemonSafety
  import Endpoint

  // ----- queueing -----

  /** The queue gained one event, `sec` seconds from now. */
  ghost predicate Adds(s: State, r: State, now: TimeVal, sec: nat, w: Work) {
    exists e :: AddsEntry(s, r, e) && e.data == w && e.tv.Micros() == now.Micros() + sec * 1_000_000
  }

  ghost predicate AddsEntry(s: State, r: State, e: Entry<Work>) {
    multiset(r.events) == multiset(s.events) + multiset{e}
  }

  lemma ScheduleAdds(s: State, now: TimeVal, sec: nat, w: Work)
    requires now.Normal()
    ensures Adds(s, Schedule(s, now, sec, w), now, sec, w)
  {
    var e := Entry(Deadline(now, TimeVal(sec, 0)), s.scheduled, w);
    DeadlineIsExact(now, TimeVal(sec, 0));
    assert e.tv.Micros() == now.Micros() + sec * 1_000_000;
    hide Insert, TimeVal.Micros, Deadline;
    InsertAdds(s.events, e);
    assert AddsEntry(s, Schedule(s, now, sec, w), e);
  }

  lemma InsertAdds(events: seq<Entry<Work>>, e: Entry<Work>)
    ensures multiset(Insert(events, e)) == multiset(events) + multiset{e}
  {
    var k := Place(events, e.tv);
    assert events == events[..k] + events[k..];
  }

  lemma AddsIsQueued(s: State, r: State, now: TimeVal, sec: nat, w: Work)
    requires Adds(s, r, now, sec, w)
    ensures Queued(r, w)
  {
    var e :| AddsEntry(s, r, e) && e.data == w && e.tv.Micros() == now.Micros() + sec * 1_000_000;
    assert e in multiset(r.events);
    assert e in r.events;
  }

  predicate Queued(s: State, w: Work) {
    exists e :: e in s.events && e.data == w
  }

  /** A new message has the next number of its tunnel. Its first retransmission is queued for
      a second later, unless the number has been acknowledged already; nothing else changes. */
  lemma SendQueues(s: State, now: TimeVal, t: nat)
    requires t in s.tunnels && now.Normal()
    ensures var r, n := Send(s, now, t), s.tunnels[t].ns;
            && r.tunnels == s.tunnels[t := s.tunnels[t].(ns := if n == 65535 then 0 else n + 1)]
            && r.calls == s.calls && r.list == s.list && r.count == s.count && r.used == s.used && r.lacs == s.lacs
            && r.nbuf == s.nbuf + 1
            && if n < s.tunnels[t].cLr then r.events == s.events && r.freed == s.freed + [s.nbuf]
               else r.freed == s.freed && Adds(s, r, now, 1, Transmit(Buf(s.nbuf, t, n, 1)))
  {
    var s1 := Numbered(s, t);
    hide Insert, Send, Adds, SameLinks;
    SendIs(s, now, t);
    if s.tunnels[t].ns >= s.tunnels[t].cLr {
      ScheduleAdds(s1, now, 1, FirstSending(s, t));
      AddsElsewhere(s1, s, Send(s, now, t), now, 1, FirstSending(s, t));
    }
  }

  /** Only the queue matters. */
  lemma AddsElsewhere(s: State, s1: State, r: State, now: TimeVal, sec: nat, w: Work)
    requires Adds(s, r, now, sec, w) && s1.events == s.events
    ensures Adds(s1, r, now, sec, w)
  {
    var e :| AddsEntry(s, r, e) && e.data == w && e.tv.Micros() == now.Micros() + sec * 1_000_000;
    assert AddsEntry(s1, r, e);
  }

  /** A Hello is a message, and the next one is due a minute later. */
  lemma HelloQueues(s: State, now: TimeVal, t: nat)
    requires t in s.tunnels && now.Normal()
    ensures var s1, r := Send(s, now, t), SayHello(s, now, t);
            && Adds(s1, r, now, 60, Hello(t)) && r.tunnels == s1.tunnels && r.calls == s1.calls && r.freed == s1.freed
            && r.nbuf == s1.nbuf && r.list == s1.list && r.used == s1.used
  {
    hide Send;
    ScheduleAdds(Send(s, now, t), now, 60, Hello(t));
    hide Insert;
  }

  /** A dialled connection that goes down is dialled again after its timeout exactly if it is
      active, is to be redialled, has a timeout, and is not waiting for that already. */
  lemma RedialExactly(s: State, now: TimeVal, lac: int)
    requires now.Normal()
    ensures var r := Redial(s, now, lac);
            if lac in s.lacs && s.lacs[lac].active && s.lacs[lac].redial && s.lacs[lac].rtimeout > 0
               && !s.lacs[lac].rsched
            then
              && r.lacs == s.lacs[lac := s.lacs[lac].(rsched := true)]
              && Adds(s, r, now, s.lacs[lac].rtimeout, Dial(lac))
            else r == s
  {
    if lac in s.lacs && s.lacs[lac].rtimeout > 0 {
      ScheduleAdds(s.(lacs := s.lacs[lac := s.lacs[lac].(rsched := true)]), now, s.lacs[lac].rtimeout, Dial(lac));
    }
    hide Insert;
  }

  // ----- closing a call -----

  predicate IsListed(s: State, c: nat) {
    c in s.calls && s.calls[c].tunnel in s.tunnels && c in s.tunnels[s.calls[c].tunnel].calls
  }

  lemma ListedCloses(s: State, now: TimeVal, c: nat)
    requires Linked(s) && IsListed(s, c)
    ensures CallClose(s, now, c) == CloseCall(s, now, c)
    ensures TunnelLinked(s, s.calls[c].tunnel)
  {
    assert TunnelLinked(s, s.calls[c].tunnel);
    hide CloseCall, CloseTunnel;
  }

  /** The closing message of a record has been sent, and its number noted. */
  ghost predicate ClosingSent(s: State, r: State, c: nat) {
    && c in s.calls && s.calls[c].tunnel in s.tunnels
    && var t := s.calls[c].tunnel;
       var n := s.tunnels[t].ns;
       && r.list == s.list && r.used == s.used && r.calls == s.calls[c := s.calls[c].(closeSs := n)]
       && r.tunnels == s.tunnels[t := s.tunnels[t].(ns := if n == 65535 then 0 else n + 1)]
       && (n >= s.tunnels[t].cLr ==> Queued(r, Transmit(Buf(s.nbuf, t, n, 1))))
  }

  lemma SendClosingDoes(s: State, now: TimeVal, c: nat)
    requires c in s.calls && s.calls[c].tunnel in s.tunnels && now.Normal()
    ensures ClosingSent(s, SendClosing(s, now, c), c)
  {
    var t := s.calls[c].tunnel;
    var n := s.tunnels[t].ns;
    var s1 := s.(calls := s.calls[c := s.calls[c].(closeSs := n)]);
    hide Send, Queued;
    SendQueues(s1, now, t);
    if n >= s.tunnels[t].cLr {
      AddsIsQueued(s1, Send(s1, now, t), now, 1, Transmit(Buf(s.nbuf, t, n, 1)));
    }
  }

  /** The first close of a call sends the peer a message, whose number it notes, and marks the
      call. Other records stay. */
  lemma CloseCallFirst(s: State, now: TimeVal, c: nat)
    requires Linked(s) && IsListed(s, c) && now.Normal() && !s.calls[c].closing
    ensures var r, t, k := CallClose(s, now, c), s.calls[c].tunnel, s.calls[c];
            var n := s.tunnels[t].ns;
            && r.list == s.list && r.used == s.used && r.calls == s.calls[c := k.(closing := true, closeSs := n)]
            && r.tunnels == s.tunnels[t := s.tunnels[t].(ns := if n == 65535 then 0 else n + 1)]
            && (n >= s.tunnels[t].cLr ==> Queued(r, Transmit(Buf(s.nbuf, t, n, 1))))
  {
    var t := s.calls[c].tunnel;
    hide Linked, CallClose, SendClosing, Queued, TunnelLinked;
    ListedCloses(s, now, c);
    SendClosingDoes(s, now, c);
    SameQueue(SendClosing(s, now, c), CloseCall(s, now, c), Transmit(Buf(s.nbuf, t, s.tunnels[t].ns, 1)));
  }

  lemma SameQueue(s: State, r: State, w: Work)
    requires r.events == s.events
    ensures Queued(s, w) == Queued(r, w)
  {
  }

  /** The second frees it: it is off the list, its address can be given again, and its dialled
      connection may be dialled again. */
  lemma CloseCallAgain(s: State, now: TimeVal, c: nat)
    requires Linked(s) && IsListed(s, c) && s.calls[c].closing
    ensures var r, t, k := CallClose(s, now, c), s.calls[c].tunnel, s.calls[c];
            && r.list == s.list && r.calls == s.calls - {c} && r.freed == s.freed
            && r.used == (if k.addr == 0 then s.used else s.used - {k.addr})
            && r.tunnels.Keys == s.tunnels.Keys && r.tunnels[t].count == s.tunnels[t].count - 1
            && (forall d :: d in r.tunnels[t].calls <==> d in s.tunnels[t].calls && d != c)
            && (forall u <- s.tunnels.Keys :: u != t ==> r.tunnels[u] == s.tunnels[u])
  {
    var t := s.calls[c].tunnel;
    ListedCloses(s, now, c);
    assert Distinct(s.tunnels[t].calls);
    hide Linked, CallClose, TunnelLinked, Distinct;
    DestroyCallIs(s, now, c);
    RemoveIs(s.tunnels[t].calls, c);
    hide DestroyCall, Remove;
  }

  // ----- closing a tunnel -----

  /** The addresses of calls. */
  function Addresses(s: State, cs: seq<nat>): set<u32> {
    set c | c in cs && c in s.calls && s.calls[c].addr != 0 :: s.calls[c].addr
  }

  predicate StaysQueued(s: State, r: State) {
    forall e <- s.events :: e in r.events
  }

  lemma DestroyStaysQueued(s: State, now: TimeVal, c: nat)
    requires c in s.calls && s.calls[c].tunnel in s.tunnels
    ensures StaysQueued(s, DestroyCall(s, now, c))
  {
    var s1 := Unlink(if s.calls[c].addr != 0 then s.(used := s.used - {s.calls[c].addr}) else s, c);
    assert s1.events == s.events;
    hide Unlink;
    RedialStaysQueued(s1, now, s.calls[c].lac);
    hide Redial;
  }

  lemma RedialStaysQueued(s: State, now: TimeVal, lac: int)
    ensures StaysQueued(s, Redial(s, now, lac))
  {
    if lac in s.lacs && s.lacs[lac].rtimeout > 0 {
      InsertKeepsEntries(s.events, Entry(Deadline(now, TimeVal(s.lacs[lac].rtimeout, 0)), s.scheduled, Dial(lac)));
    }
    hide Insert;
  }

  /** Destroying calls gives their addresses back and takes nothing out of the queue. */
  lemma {:induction false} DestroyCallsDoes(s: State, now: TimeVal, cs: seq<nat>)
    requires Destroyable(s, cs)
    ensures var r := DestroyCalls(s, now, cs); r.used == s.used - Addresses(s, cs) && StaysQueued(s, r)
    decreases |cs|
  {
    if cs == [] {
      assert Addresses(s, cs) == {};
    } else {
      var c, s1, rest := cs[0], DestroyCall(s, now, cs[0]), cs[1..];
      assert Destroyable(s1, rest);
      DestroyCallIs(s, now, c);
      DestroyStaysQueued(s, now, c);
      AddressesSplit(s, s1, cs);
      hide DestroyCall, Destroyable, Addresses;
      DestroyCallsDoes(s1, now, rest);
    }
  }

  lemma AddressesSplit(s: State, s1: State, cs: seq<nat>)
    requires cs != [] && cs[0] in s.calls && Distinct(cs) && s1.calls == s.calls - {cs[0]}
    ensures Addresses(s, cs)
         == Addresses(s1, cs[1..]) + (if s.calls[cs[0]].addr != 0 then {s.calls[cs[0]].addr} else {})
  {
    assert cs == [cs[0]] + cs[1..];
    forall x | x in Addresses(s, cs)
      ensures x in Addresses(s1, cs[1..]) + (if s.calls[cs[0]].addr != 0 then {s.calls[cs[0]].addr} else {})
    {
      var c :| c in cs && c in s.calls && s.calls[c].addr == x != 0;
      assert c != cs[0] ==> c in cs[1..] && c in s1.calls;
    }
    forall x | x in Addresses(s1, cs[1..]) ensures x in Addresses(s, cs) {
      var c :| c in cs[1..] && c in s1.calls && s1.calls[c].addr == x != 0;
      assert c in cs && c in s.calls;
    }
  }

  /** What the first close of a tunnel leaves: its own record, marked, with the number of the
      one message that is still queued for it; no calls, and their addresses free. */
  ghost predicate ClosedFirst(s: State, r: State, t: nat) {
    ClosedList(s, r, t) && ClosedRecords(s, r, t) && ClosedQueue(s, r, t)
  }

  predicate ClosedList(s: State, r: State, t: nat) {
    && t in s.tunnels && t in r.tunnels && r.list == s.list && r.tunnels.Keys == s.tunnels.Keys
    && var n := s.tunnels[t].ns;
       r.tunnels[t] == s.tunnels[t].(calls := [], count := 0, ns := if n == 65535 then 0 else n + 1)
  }

  predicate ClosedRecords(s: State, r: State, t: nat) {
    && t in s.tunnels && s.tunnels[t].self in s.calls
    && var self, cs := s.tunnels[t].self, s.tunnels[t].calls;
       && r.calls == (s.calls - Members(cs))[self := s.calls[self].(closing := true, closeSs := s.tunnels[t].ns)]
       && r.used == s.used - Addresses(s, cs)
  }

  ghost predicate ClosedQueue(s: State, r: State, t: nat) {
    && t in s.tunnels
    && var w := Transmit(Buf(s.nbuf, t, s.tunnels[t].ns, 1));
       OnlyOf(r, t, w) && (s.tunnels[t].ns >= s.tunnels[t].cLr ==> Queued(r, w))
  }

  /** The state once the StopCCN has been sent. */
  lemma StopSent(s: State, now: TimeVal, t: nat, held: set<nat>)
    requires Inv(s, held) && t in s.tunnels && TunnelLinked(s, t) && now.Normal()
    ensures var s0, self := Sweep(s, t), s.tunnels[t].self;
            var s1 := SendClosing(s0, now, self);
            Inv(s1, held) && ClosingSent(s, s1, self) && Destroyable(s1, s.tunnels[t].calls)
  {
    var s0, self := Sweep(s, t), s.tunnels[t].self;
    var s1 := SendClosing(s0, now, self);
    assert s0.tunnels == s.tunnels && s0.calls == s.calls && s0.nbuf == s.nbuf && s0.list == s.list;
    assert s0.used == s.used && self in s.calls && s.calls[self].tunnel == t && Destroyable(s, s.tunnels[t].calls);
    hide *;
    SweepKeeps(s, t, held);
    SendClosingKeeps(s0, now, self, held);
    SendClosingDoes(s0, now, self);
    SentFromSame(s, s0, s1, self);
    SentDestroyable(s, s1, self, s.tunnels[t].calls);
  }

  lemma SentFromSame(s: State, s0: State, r: State, c: nat)
    requires s0.tunnels == s.tunnels && s0.calls == s.calls && s0.nbuf == s.nbuf && s0.list == s.list
    requires s0.used == s.used && ClosingSent(s0, r, c)
    ensures ClosingSent(s, r, c)
  {
    hide Queued;
  }

  lemma SentDestroyable(s: State, r: State, c: nat, cs: seq<nat>)
    requires ClosingSent(s, r, c) && Destroyable(s, cs)
    ensures Destroyable(r, cs)
  {
    hide Queued, Distinct;
  }

  lemma QueuedStays(s: State, r: State, w: Work)
    requires Queued(s, w) && StaysQueued(s, r)
    ensures Queued(r, w)
  {
    var e :| e in s.events && e.data == w;
    assert e in r.events;
  }

  lemma AddressesSame(s: State, s1: State, cs: seq<nat>, self: nat)
    requires self !in cs && self in s.calls && s1.calls.Keys == s.calls.Keys
    requires forall c <- cs :: c in s.calls ==> s1.calls[c] == s.calls[c]
    ensures Addresses(s1, cs) == Addresses(s, cs)
  {
  }

  lemma CloseTunnelFirst(s: State, now: TimeVal, t: nat, held: set<nat>)
    requires Inv(s, held) && t in s.tunnels && TunnelLinked(s, t) && now.Normal()
    requires !s.calls[s.tunnels[t].self].closing
    ensures ClosedFirst(s, CloseTunnel(s, now, t), t)
  {
    var self, cs, s0 := s.tunnels[t].self, s.tunnels[t].calls, Sweep(s, t);
    var s1, r := SendClosing(s0, now, self), CloseTunnel(s, now, t);
    StopSent(s, now, t, held);
    assert self !in cs && s.calls[self].tunnel == t;
    var s2 := DestroyCalls(s1, now, cs);
    DestroyCallsKeeps(s1, now, cs);
    assert r == SetFlags(s2, self, s.calls[self].needclose, true);
    CloseTunnelKeeps(s, now, t, held);
    assert OnlyOf(r, t, Transmit(Buf(s.nbuf, t, s.tunnels[t].ns, 1)));
    hide *;
    ClosedTogether(s, s1, s2, r, now, t, self, cs, held);
  }

  lemma ClosedTogether(s: State, s1: State, s2: State, r: State, now: TimeVal, t: nat, self: nat, cs: seq<nat>,
                       held: set<nat>)
    requires t in s.tunnels && self == s.tunnels[t].self && cs == s.tunnels[t].calls && self !in cs
    requires ClosingSent(s, s1, self) && s.calls[self].tunnel == t && Inv(s1, held) && Destroyable(s1, cs)
    requires s2 == DestroyCalls(s1, now, cs) && s2.calls == s1.calls - Members(cs) && self in s2.calls
    requires r == SetFlags(s2, self, s.calls[self].needclose, true)
    requires OnlyOf(r, t, Transmit(Buf(s.nbuf, t, s.tunnels[t].ns, 1)))
    ensures ClosedFirst(s, r, t)
  {
    assert self in s.calls;
    hide *;
    FlagsOnly(s2, r, self, s.calls[self].needclose, true);
    ClosedCalls(s, s1, s2, r, t, self, cs);
    SentTunnel(s, s1, self, t);
    DestroyCallsDoes(s1, now, cs);
    DestroyCallsEmpties(s1, now, t, held);
    EmptiedTunnels(s1, s2, t, held);
    ClosedListNow(s, s1, s2, r, t);
    ClosedRecordsNow(s, s1, s2, r, t, self, cs);
    ClosedQueueNow(s, s1, s2, r, t, self);
    ClosedParts(s, r, t);
  }

  lemma ClosedParts(s: State, r: State, t: nat)
    requires ClosedList(s, r, t) && ClosedRecords(s, r, t) && ClosedQueue(s, r, t)
    ensures ClosedFirst(s, r, t)
  {
    hide ClosedList, ClosedRecords, ClosedQueue;
  }

  lemma FlagsOnly(s: State, r: State, c: nat, needclose: bool, closing: bool)
    requires c in s.calls && r == SetFlags(s, c, needclose, closing)
    ensures r.events == s.events && r.used == s.used && r.list == s.list && r.tunnels == s.tunnels
  {
  }

  lemma ClosedListNow(s: State, s1: State, s2: State, r: State, t: nat)
    requires t in s.tunnels && t in s1.tunnels && s1.list == s.list && s1.tunnels.Keys == s.tunnels.Keys
    requires var n := s.tunnels[t].ns; s1.tunnels[t] == s.tunnels[t].(ns := if n == 65535 then 0 else n + 1)
    requires s2.list == s1.list && s2.tunnels.Keys == s1.tunnels.Keys
    requires s2.tunnels[t] == s1.tunnels[t].(calls := [], count := 0) && r.list == s2.list && r.tunnels == s2.tunnels
    ensures ClosedList(s, r, t)
  {
  }

  lemma SentTunnel(s: State, r: State, c: nat, t: nat)
    requires ClosingSent(s, r, c) && s.calls[c].tunnel == t
    ensures r.list == s.list && t in r.tunnels && r.tunnels.Keys == s.tunnels.Keys
    ensures var n := s.tunnels[t].ns; r.tunnels[t] == s.tunnels[t].(ns := if n == 65535 then 0 else n + 1)
  {
    hide Queued;
  }

  lemma ClosedRecordsNow(s: State, s1: State, s2: State, r: State, t: nat, self: nat, cs: seq<nat>)
    requires t in s.tunnels && self == s.tunnels[t].self && cs == s.tunnels[t].calls && self !in cs
    requires ClosingSent(s, s1, self) && s.calls[self].tunnel == t && s2.used == s1.used - Addresses(s1, cs)
    requires r.calls == (s.calls - Members(cs))[self := s.calls[self].(closing := true, closeSs := s.tunnels[t].ns)]
    requires r.used == s2.used
    ensures ClosedRecords(s, r, t)
  {
    hide Queued, Members;
    AddressesSame(s, s1, cs, self);
    hide Addresses;
  }

  lemma ClosedQueueNow(s: State, s1: State, s2: State, r: State, t: nat, self: nat)
    requires t in s.tunnels && ClosingSent(s, s1, self) && s.calls[self].tunnel == t
    requires StaysQueued(s1, s2) && r.events == s2.events && OnlyOf(r, t, Transmit(Buf(s.nbuf, t, s.tunnels[t].ns, 1)))
    ensures ClosedQueue(s, r, t)
  {
    var w := Transmit(Buf(s.nbuf, t, s.tunnels[t].ns, 1));
    hide Queued, OnlyOf, StaysQueued;
    if s.tunnels[t].ns >= s.tunnels[t].cLr {
      QueuedStays(s1, s2, w);
      SameQueue(s2, r, w);
    }
  }

  lemma EmptiedTunnels(s: State, r: State, t: nat, held: set<nat>)
    requires Emptied(s, r, t, held)
    ensures r.list == s.list && r.tunnels.Keys == s.tunnels.Keys
    ensures r.tunnels[t] == s.tunnels[t].(calls := [], count := 0)
  {
    hide Inv, OnlyDials;
  }

  lemma ClosedCalls(s: State, s1: State, s2: State, r: State, t: nat, self: nat, cs: seq<nat>)
    requires self !in cs && t in s.tunnels && ClosingSent(s, s1, self) && s.calls[self].tunnel == t
    requires s2.calls == s1.calls - Members(cs) && self in s2.calls
    requires r == SetFlags(s2, self, s.calls[self].needclose, true)
    ensures r.calls == (s.calls - Members(cs))[self := s.calls[self].(closing := true, closeSs := s.tunnels[t].ns)]
  {
  }

  /** And the second: nothing. */
  lemma CloseTunnelAgain(s: State, now: TimeVal, t: nat, held: set<nat>)
    requires Inv(s, held) && t in s.tunnels && TunnelLinked(s, t) && s.calls[s.tunnels[t].self].closing
    ensures var r, self, cs := CloseTunnel(s, now, t), s.tunnels[t].self, s.tunnels[t].calls;
            && t !in r.tunnels && t !in r.list && r.calls == s.calls - Members(cs) - {self} && NoneOf(r.events, t)
            && r.tunnels.Keys == s.tunnels.Keys - {t}
  {
    var self, cs, s0 := s.tunnels[t].self, s.tunnels[t].calls, Sweep(s, t);
    SweepKeeps(s, t, held);
    assert s0.tunnels == s.tunnels && s0.calls == s.calls;
    SameLinksAt(s, s0, t);
    var r := CloseTunnel(s, now, t);
    assert Destroyable(s0, cs);
    assert r == DestroyTunnel(s0, now, t);
    CloseTunnelKeeps(s, now, t, held);
    DestroyTunnelKeeps(s0, now, t, held);
    assert r.calls == s.calls - Members(cs) - {self} by {
      DestroyCallsKeeps(s0, now, cs);
      hide DestroyCalls, Inv, CloseTunnel, Members, Redial;
      BuryCalls(DestroyCalls(s0, now, cs), now, t);
    }
    assert Linked(r);
    hide *;
    NotListed(r, t);
  }

  lemma NotListed(s: State, t: nat)
    requires Linked(s) && t !in s.tunnels
    ensures t !in s.list
  {
  }

  lemma BuryCalls(s: State, now: TimeVal, t: nat)
    requires t in s.tunnels && s.tunnels[t].self in s.calls && s.calls[s.tunnels[t].self].tunnel in s.tunnels
    ensures Bury(s, now, t).calls == s.calls - {s.tunnels[t].self}
  {
    hide Insert;
  }

  // ----- the transmit timer -----

  /** The pause after a message has gone out `tries` times more than once: 2, 4, 8, ... seconds. */
  function Pause(tries: nat): nat {
    Endpoint.Pow2(if tries > 31 then 31 else tries)
  }

  /** The timer of a queued message: an acknowledged one is freed. */
  lemma AcknowledgedIsFreed(s: State, now: TimeVal, b: Buf, maxRetries: nat)
    requires Linked(s) && b.tunnel in s.tunnels && b.ns < s.tunnels[b.tunnel].cLr
    ensures Retransmit(s, now, b, maxRetries) == s.(freed := s.freed + [b.id])
  {
    hide CloseTunnel;
  }

  /** One that may go out again does, and is queued for after the next pause; nothing else
      happens. */
  lemma ResentWhileAllowed(s: State, now: TimeVal, b: Buf, maxRetries: nat)
    requires Linked(s) && b.tunnel in s.tunnels && b.ns >= s.tunnels[b.tunnel].cLr && b.retries < maxRetries
    requires now.Normal()
    ensures var r := Retransmit(s, now, b, maxRetries);
            && r == s.(events := r.events, scheduled := s.scheduled + 1)
            && Adds(s, r, now, Pause(b.retries), Transmit(b.(retries := b.retries + 1)))
  {
    hide CloseTunnel, Insert, Adds, Linked;
    ScheduleAdds(s, now, Pause(b.retries), Transmit(b.(retries := b.retries + 1)));
  }

  /** Only otherwise is the tunnel given up: closed, or gone if it was being closed. */
  lemma GivenUpAtTheEnd(s: State, now: TimeVal, b: Buf, maxRetries: nat, held: set<nat>)
    requires Inv(s, held) && Linked(s) && b.tunnel in s.tunnels && b.ns >= s.tunnels[b.tunnel].cLr
    requires b.retries >= maxRetries && b.id in held && now.Normal()
    ensures s.tunnels[b.tunnel].self in s.calls
    ensures var r, t := Retransmit(s, now, b, maxRetries), b.tunnel;
            var k := s.calls[s.tunnels[t].self];
            && b.id in r.freed
            && if k.needclose || k.closing then t !in r.tunnels && t !in r.list
               else ClosedFirst(s.(calls := s.calls[s.tunnels[t].self := k.(needclose := true)]), r, t)
  {
    var t, self := b.tunnel, s.tunnels[b.tunnel].self;
    assert TunnelLinked(s, t);
    var s1, k, r := GiveUp(s, self), s.calls[self], Retransmit(s, now, b, maxRetries);
    assert s1.calls[self].closing <==> k.needclose || k.closing;
    assert self in s1.calls && s1.tunnels == s.tunnels;
    assert !k.needclose && !k.closing ==> s1 == s.(calls := s.calls[self := k.(needclose := true)]);
    GivesUp(s, now, b, maxRetries, held);
    var r1 := CloseTunnel(s1, now, t);
    hide *;
    if k.needclose || k.closing {
      CloseTunnelAgain(s1, now, t, held);
    } else {
      CloseTunnelFirst(s1, now, t, held);
      TossedClosed(s1, r1, r, t);
    }
  }

  lemma GivesUp(s: State, now: TimeVal, b: Buf, maxRetries: nat, held: set<nat>)
    requires Inv(s, held) && Linked(s) && b.tunnel in s.tunnels && b.ns >= s.tunnels[b.tunnel].cLr
    requires b.retries >= maxRetries && s.tunnels[b.tunnel].self in s.calls
    ensures var s1 := GiveUp(s, s.tunnels[b.tunnel].self);
            && Inv(s1, held) && b.tunnel in s1.tunnels && TunnelLinked(s1, b.tunnel)
            && var r1, r := CloseTunnel(s1, now, b.tunnel), Retransmit(s, now, b, maxRetries);
               r == r1.(freed := r1.freed + [b.id])
  {
    var t, self := b.tunnel, s.tunnels[b.tunnel].self;
    hide Inv, Linked, CloseTunnel, TunnelLinked, GiveUp, SameLinks, Schedule;
    CallsDestroyable(s, t);
    GiveUpKeeps(s, self, held);
    SameLinksAt(s, GiveUp(s, self), t);
  }

  lemma TossedClosed(s: State, r1: State, r: State, t: nat)
    requires ClosedFirst(s, r1, t) && r == r1.(freed := r.freed)
    ensures ClosedFirst(s, r, t)
  {
    hide Addresses, Members;
  }
}