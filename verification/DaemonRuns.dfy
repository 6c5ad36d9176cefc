/** Whole runs of the daemon: whatever packets, timers, commands and dying children ask
    of it, in any order. */
module DaemonRuns {
  import opened Words
  import opened Scheduler
  import opened Daemon
  import opened DaemonSafety
  import AddressPool
  import DaemonEffects

  datatype Action =
    | NewTunnel(lac: int)
    | NewCall(tunnel: nat, lac: int)
    | Message(tunnel: nat)
    | StartHello(tunnel: nat)
    | Fire(maxRetries: nat)
    | Flag(call: nat, needclose: bool, closing: bool)
    | Heard(tunnel: nat, nr: u16)
    | Close(call: nat)
    | Assign(tunnel: nat, ranges: seq<AddressPool.Range>, addr: u32)
    | SetLac(lac: int, settings: Lac)

  predicate Legal(s: State, a: Action) {
    match a
    case NewTunnel(_) => true
    case NewCall(t, _) => t in s.tunnels
    case Message(t) => t in s.tunnels
    case StartHello(t) => t in s.tunnels
    case Fire(_) => s.events != []
    case Flag(c, _, _) => c in s.calls
    case Heard(t, _) => t in s.tunnels
    case Close(c) => c in s.calls
    case Assign(t, ranges, x) =>
      t in s.tunnels && s.tunnels[t].calls != [] && s.tunnels[t].calls[0] in s.calls
      && (x == 0 || AddressPool.Chosen(ranges, s.used, x))
    case SetLac(_, _) => true
  }

  function AddTunnel(s: State, lac: int): State {
    s.(list := [s.next] + s.list, count := s.count + 1, next := s.next + 2,
       tunnels := s.tunnels[s.next := Tunnel(s.next + 1, [], 0, 0, 0, lac)],
       calls := s.calls[s.next + 1 := Call(s.next, false, false, 0, 0, lac)])
  }

  function AddCall(s: State, t: nat, lac: int): State
    requires t in s.tunnels
  {
    var r := s.tunnels[t];
    s.(next := s.next + 1,
       tunnels := s.tunnels[t := r.(calls := [s.next] + r.calls, count := r.count + 1)],
       calls := s.calls[s.next := Call(t, false, false, 0, 0, lac)])
  }

  /** The first event leaves the queue and is run. */
  function FireFirst(s: State, now: TimeVal, maxRetries: nat): State
    requires s.events != [] && Linked(s) && AllLive(s)
  {
    var s1 := s.(events := s.events[1..]);
    assert Live(s, s.events[0].data) && SameLinks(s, s1);
    SameLinksLinked(s, s1);
    match s.events[0].data
    case Transmit(b) => Retransmit(s1, now, b, maxRetries)
    case Hello(t) => SayHello(s1, now, t)
    case Dial(lac) =>
      if lac in s.lacs && s.lacs[lac].active then s1.(lacs := s.lacs[lac := s.lacs[lac].(rsched := false)]) else s1
  }

  function One(x: u32): set<u32> {
    if x == 0 then {} else {x}
  }

  /** A call is given the address that was found, or none, whatever it had before. */
  function Reserve(s: State, c: nat, x: u32): State
    requires c in s.calls
  {
    s.(used := s.used + One(x), lost := s.lost + One(s.calls[c].addr), calls := s.calls[c := s.calls[c].(addr := x)])
  }

  function Step(s: State, now: TimeVal, a: Action): State
    requires Legal(s, a) && Linked(s) && AllLive(s)
  {
    match a
    case NewTunnel(lac) => AddTunnel(s, lac)
    case NewCall(t, lac) => AddCall(s, t, lac)
    case Message(t) => Send(s, now, t)
    case StartHello(t) => Schedule(s, now, HELLO_DELAY, Hello(t))
    case Fire(maxRetries) => FireFirst(s, now, maxRetries)
    case Flag(c, needclose, closing) => SetFlags(s, c, needclose, closing)
    case Heard(t, nr) => s.(tunnels := s.tunnels[t := s.tunnels[t].(cLr := nr)])
    case Close(c) => CallClose(s, now, c)
    case Assign(t, _, x) => Reserve(s, s.tunnels[t].calls[0], x)
    case SetLac(lac, l) => s.(lacs := s.lacs[lac := l])
  }

  // ----- each step keeps the invariants -----

  lemma DistinctCons(x: nat, s: seq<nat>)
    requires Distinct(s) && x !in s
    ensures Distinct([x] + s)
  {
  }

  lemma AddTunnelList(s: State, lac: int)
    requires ListLinked(s) && Handed(s)
    ensures ListLinked(AddTunnel(s, lac))
  {
    DistinctCons(s.next, s.list);
    hide Distinct;
  }

  lemma AddTunnelOther(s: State, lac: int, t: nat)
    requires Handed(s) && t in s.tunnels && TunnelLinked(s, t)
    ensures t in AddTunnel(s, lac).tunnels && TunnelLinked(AddTunnel(s, lac), t)
  {
    hide Distinct;
  }

  lemma AddTunnelLinked(s: State, lac: int)
    requires Linked(s) && Handed(s)
    ensures Linked(AddTunnel(s, lac))
  {
    var r := AddTunnel(s, lac);
    AddTunnelList(s, lac);
    assert TunnelLinked(r, s.next) && CallLinked(r, s.next + 1);
    hide ListLinked;
    forall t <- r.tunnels.Keys ensures TunnelLinked(r, t) {
      if t != s.next {
        hide TunnelLinked, CallsLinked, Handed;
        AddTunnelOther(s, lac, t);
      }
    }
    hide TunnelLinked, TunnelsLinked;
    forall c <- r.calls.Keys ensures CallLinked(r, c) {
      assert c in s.calls ==> CallLinked(s, c);
    }
  }

  lemma AddCallTunnel(s: State, t: nat, lac: int, u: nat)
    requires Handed(s) && t in s.tunnels && u in s.tunnels && TunnelLinked(s, u)
    ensures TunnelLinked(AddCall(s, t, lac), u)
  {
    if u == t {
      DistinctCons(s.next, s.tunnels[t].calls);
    }
    hide Distinct;
    assert s.next !in s.calls && s.next !in s.tunnels[u].calls;
  }

  lemma AddCallCall(s: State, t: nat, lac: int, c: nat)
    requires Handed(s) && t in s.tunnels && (c in s.calls ==> CallLinked(s, c)) && c in AddCall(s, t, lac).calls
    ensures CallLinked(AddCall(s, t, lac), c)
  {
  }

  lemma AddCallLinked(s: State, t: nat, lac: int)
    requires Linked(s) && Handed(s) && t in s.tunnels
    ensures Linked(AddCall(s, t, lac))
  {
    var r := AddCall(s, t, lac);
    assert ListLinked(r);
    hide ListLinked, TunnelLinked, CallLinked, Handed;
    forall u <- r.tunnels.Keys ensures TunnelLinked(r, u) {
      AddCallTunnel(s, t, lac, u);
    }
    forall c <- r.calls.Keys ensures CallLinked(r, c) {
      AddCallCall(s, t, lac, c);
    }
  }

  lemma AddedRest(s: State, r: State, c: nat, k: Call, held: set<nat>)
    requires AllLive(s) && Owned(s, held) && Addressed(s) && Handed(s)
    requires c !in s.calls && k.addr == 0 && r.calls == s.calls[c := k] && r.used == s.used && r.lost == s.lost
    requires r.events == s.events && r.freed == s.freed && r.nbuf == s.nbuf && s.tunnels.Keys <= r.tunnels.Keys
    ensures AllLive(r) && Owned(r, held) && Addressed(r)
  {
    FlagsOwned(s, r, held);
    hide Owned;
    forall x <- r.used ensures x != 0 && (Holder(r, x) || x in r.lost) {
      if Holder(s, x) {
        var d :| d in s.calls && s.calls[d].addr == x;
        assert d in r.calls && r.calls[d].addr == x;
      }
    }
  }

  lemma AddTunnelHanded(s: State, lac: int)
    requires Handed(s)
    ensures var r := AddTunnel(s, lac); Handed(r) && s.next + 1 !in s.calls && s.tunnels.Keys <= r.tunnels.Keys
  {
  }

  lemma AddCallHanded(s: State, t: nat, lac: int)
    requires Handed(s) && t in s.tunnels
    ensures var r := AddCall(s, t, lac); Handed(r) && s.next !in s.calls && s.tunnels.Keys <= r.tunnels.Keys
  {
  }

  lemma AddTunnelKeeps(s: State, lac: int, held: set<nat>)
    requires Inv(s, held)
    ensures Inv(AddTunnel(s, lac), held)
  {
    hide Linked, AllLive, Owned, Addressed, Handed;
    AddTunnelLinked(s, lac);
    AddTunnelHanded(s, lac);
    AddedRest(s, AddTunnel(s, lac), s.next + 1, Call(s.next, false, false, 0, 0, lac), held);
  }

  lemma AddCallKeeps(s: State, t: nat, lac: int, held: set<nat>)
    requires Inv(s, held) && t in s.tunnels
    ensures Inv(AddCall(s, t, lac), held)
  {
    hide Linked, AllLive, Owned, Addressed, Handed;
    AddCallLinked(s, t, lac);
    AddCallHanded(s, t, lac);
    AddedRest(s, AddCall(s, t, lac), s.next, Call(t, false, false, 0, 0, lac), held);
  }

  lemma FirstTaken(s: State, held: set<nat>)
    requires Inv(s, held) && s.events != []
    ensures var s1, w := s.(events := s.events[1..]), s.events[0].data;
            && Live(s, w) && SameLinks(s, s1)
            && Inv(s1, if w.Transmit? then held + {w.buf.id} else held)
            && (w.Transmit? ==> w.buf.id !in held)
  {
    var s1, w := s.(events := s.events[1..]), s.events[0].data;
    var more := if w.Transmit? then held + {w.buf.id} else held;
    assert AllLive(s1) && SameLinks(s, s1) && Live(s, w);
    if w.Transmit? {
      assert OwnedOnce(s, held, w.buf.id);
    }
    forall b: nat ensures OwnedOnce(s1, more, b) {
      assert OwnedOnce(s, held, b);
    }
    hide Linked, Addressed, Handed, AllLive, SameLinks, OwnedOnce;
    SameLinksKeep(s, s1, held, more);
  }

  lemma FireKeeps(s: State, now: TimeVal, maxRetries: nat)
    requires Inv(s, {}) && Linked(s) && AllLive(s) && s.events != []
    ensures Inv(FireFirst(s, now, maxRetries), {})
  {
    var s1 := s.(events := s.events[1..]);
    FirstTaken(s, {});
    SameLinksLinked(s, s1);
    assert s1.tunnels == s.tunnels;
    hide Inv, Linked, AllLive, SameLinks, Retransmit, SayHello;
    match s.events[0].data
    case Transmit(b) =>
      RetransmitKeeps(s1, now, b, maxRetries, {} + {b.id});
      assert {} + {b.id} - {b.id} == {};
    case Hello(t) => SayHelloKeeps(s1, now, t, {});
    case Dial(lac) => LacsKeep(s1, FireFirst(s, now, maxRetries), {});
  }

  lemma LacsKeep(s: State, r: State, held: set<nat>)
    requires Inv(s, held) && r == s.(lacs := r.lacs)
    ensures Inv(r, held)
  {
    hide Linked, Addressed, Handed, Owned, AllLive;
    SameEventsLive(s, r);
    FlagsOwned(s, r, held);
    assert SameLinks(s, r);
    hide *;
    SameLinksKeep(s, r, held, held);
  }

  lemma HeardKeeps(s: State, t: nat, nr: u16, held: set<nat>)
    requires Inv(s, held) && t in s.tunnels
    ensures Inv(s.(tunnels := s.tunnels[t := s.tunnels[t].(cLr := nr)]), held)
  {
    var r := s.(tunnels := s.tunnels[t := s.tunnels[t].(cLr := nr)]);
    hide Linked, Addressed, Handed, Owned, AllLive;
    SameEventsLive(s, r);
    FlagsOwned(s, r, held);
    assert SameLinks(s, r);
    hide *;
    SameLinksKeep(s, r, held, held);
  }

  lemma ReserveTunnel(s: State, c: nat, x: u32, t: nat)
    requires c in s.calls && t in s.tunnels && TunnelLinked(s, t)
    ensures TunnelLinked(Reserve(s, c, x), t)
  {
    hide Distinct;
  }

  lemma ReserveLinked(s: State, c: nat, x: u32)
    requires Linked(s) && c in s.calls
    ensures Linked(Reserve(s, c, x))
  {
    var r := Reserve(s, c, x);
    assert ListLinked(r);
    hide ListLinked, TunnelLinked;
    forall t <- r.tunnels.Keys ensures TunnelLinked(r, t) {
      ReserveTunnel(s, c, x, t);
    }
    hide TunnelsLinked;
    forall d <- r.calls.Keys ensures CallLinked(r, d) {
      assert CallLinked(s, d);
    }
  }

  lemma ReserveAddressed(s: State, c: nat, x: u32)
    requires Addressed(s) && c in s.calls && (x == 0 || x !in s.used)
    ensures Addressed(Reserve(s, c, x))
  {
    var r := Reserve(s, c, x);
    assert r.calls[c].addr == x;
    forall y <- r.used ensures y != 0 && (Holder(r, y) || y in r.lost) {
      if y != x && Holder(s, y) {
        var d :| d in s.calls && s.calls[d].addr == y;
        assert d != c ==> d in r.calls && r.calls[d].addr == y;
      }
    }
  }

  lemma ReserveKeeps(s: State, c: nat, x: u32, held: set<nat>)
    requires Inv(s, held) && c in s.calls && (x == 0 || x !in s.used)
    ensures Inv(Reserve(s, c, x), held)
  {
    var r := Reserve(s, c, x);
    assert Handed(r);
    hide Linked, Addressed, Handed, Owned, AllLive;
    ReserveLinked(s, c, x);
    ReserveAddressed(s, c, x);
    SameEventsLive(s, r);
    FlagsOwned(s, r, held);
  }

  lemma ChosenIsUnused(ranges: seq<AddressPool.Range>, used: set<u32>, x: u32)
    requires AddressPool.Chosen(ranges, used, x)
    ensures x !in used
  {
  }

  lemma StepKeepsInv(s: State, now: TimeVal, a: Action)
    requires Inv(s, {}) && Linked(s) && AllLive(s) && Legal(s, a)
    ensures Inv(Step(s, now, a), {})
  {
    hide Inv, Linked, AllLive, AddTunnel, AddCall, Send, Schedule, FireFirst, SetFlags, CallClose, Reserve;
    match a
    case NewTunnel(lac) => AddTunnelKeeps(s, lac, {});
    case NewCall(t, lac) => AddCallKeeps(s, t, lac, {});
    case Message(t) => SendKeeps(s, now, t, {});
    case StartHello(t) => ScheduleKeeps(s, now, HELLO_DELAY, Hello(t), {});
    case Fire(maxRetries) => FireKeeps(s, now, maxRetries);
    case Flag(c, needclose, closing) => SetFlagsKeeps(s, c, needclose, closing, {});
    case Heard(t, nr) => HeardKeeps(s, t, nr, {});
    case Close(c) => CallCloseKeeps(s, now, c, {});
    case Assign(t, ranges, x) =>
      if x != 0 {
        ChosenIsUnused(ranges, s.used, x);
      }
      ReserveKeeps(s, s.tunnels[t].calls[0], x, {});
    case SetLac(_, _) => LacsKeep(s, Step(s, now, a), {});
  }

  // ----- runs -----

  ghost predicate LegalRun(s: State, run: seq<(TimeVal, Action)>)
    decreases |run|
  {
    run == [] ||
    (Linked(s) && AllLive(s) && Legal(s, run[0].1) && LegalRun(Step(s, run[0].0, run[0].1), run[1..]))
  }

  ghost function Final(s: State, run: seq<(TimeVal, Action)>): State
    requires LegalRun(s, run)
    decreases |run|
  {
    if run == [] then s else Final(Step(s, run[0].0, run[0].1), run[1..])
  }

  lemma {:induction false} RunKeepsInv(s: State, run: seq<(TimeVal, Action)>)
    requires Inv(s, {}) && LegalRun(s, run)
    ensures Inv(Final(s, run), {})
    decreases |run|
  {
    if run != [] {
      hide Inv, Linked, AllLive, Step, Legal;
      StepKeepsInv(s, run[0].0, run[0].1);
      RunKeepsInv(Step(s, run[0].0, run[0].1), run[1..]);
    }
  }

  lemma EmptyInv()
    ensures Inv(EMPTY, {})
  {
    forall b: nat ensures OwnedOnce(EMPTY, {}, b) {
    }
  }

  /** A buffer is queued once and not freed, or freed once and not queued. */
  predicate FreedOrQueuedOnce(s: State, b: nat) {
    || (Copies(s.events, b) == 1 && multiset(s.freed)[b] == 0)
    || (Copies(s.events, b) == 0 && multiset(s.freed)[b] == 1)
  }

  /** In every state a run reaches: counters are list lengths, queued work is for listed
      tunnels, every buffer made so far is queued or freed exactly once, and each reserved
      address belongs to exactly one call or is lost. */
  lemma EveryRun(run: seq<(TimeVal, Action)>)
    requires LegalRun(EMPTY, run)
    ensures var s := Final(EMPTY, run);
            && Linked(s) && AllLive(s) && Addressed(s)
            && forall b: nat :: b < s.nbuf ==> FreedOrQueuedOnce(s, b)
  {
    EmptyInv();
    RunKeepsInv(EMPTY, run);
    var s := Final(EMPTY, run);
    forall b: nat | b < s.nbuf ensures FreedOrQueuedOnce(s, b) {
      assert OwnedOnce(s, {}, b);
    }
    hide Linked, AllLive, Addressed, Final, LegalRun;
  }

  /** A run can always go on: an action that is possible in a reached state is a step,
      so no step touches a record that has been freed. */
  lemma {:induction false} RunExtends(s: State, run: seq<(TimeVal, Action)>, now: TimeVal, a: Action)
    requires Inv(s, {}) && LegalRun(s, run) && Legal(Final(s, run), a)
    ensures LegalRun(s, run + [(now, a)])
    decreases |run|
  {
    if run == [] {
      assert run + [(now, a)] == [(now, a)];
      assert [(now, a)][1..] == run;
    } else {
      hide Inv, Linked, AllLive, Step, Legal;
      StepKeepsInv(s, run[0].0, run[0].1);
      RunExtends(Step(s, run[0].0, run[0].1), run[1..], now, a);
      assert (run + [(now, a)])[1..] == run[1..] + [(now, a)];
    }
  }

  // ----- addresses that are lost -----

  lemma {:induction false} DestroyCallsLose(s: State, now: TimeVal, cs: seq<nat>)
    requires Destroyable(s, cs)
    ensures DestroyCalls(s, now, cs).lost == s.lost
    decreases |cs|
  {
    if cs != [] {
      var s1 := DestroyCall(s, now, cs[0]);
      DestroyCallIs(s, now, cs[0]);
      DestroyCallsKeeps(s, now, cs);
      assert Destroyable(s1, cs[1..]);
      hide DestroyCall;
      DestroyCallsLose(s1, now, cs[1..]);
    }
  }

  lemma BuryLoses(s: State, now: TimeVal, t: nat)
    requires t in s.tunnels && s.tunnels[t].self in s.calls && s.calls[s.tunnels[t].self].tunnel in s.tunnels
    ensures Bury(s, now, t).lost == s.lost
  {
  }

  lemma CloseTunnelLoses(s: State, now: TimeVal, t: nat)
    requires t in s.tunnels && TunnelLinked(s, t)
    ensures CloseTunnel(s, now, t).lost == s.lost
  {
    var s0, self := Sweep(s, t), s.tunnels[t].self;
    if s.calls[self].closing {
      DestroyCallsLose(s0, now, s.tunnels[t].calls);
      DestroyCallsKeeps(s0, now, s.tunnels[t].calls);
      BuryLoses(DestroyCalls(s0, now, s.tunnels[t].calls), now, t);
      hide Bury, DestroyCalls;
    } else {
      DestroyCallsLose(SendClosing(s0, now, self), now, s.tunnels[t].calls);
      hide DestroyCalls;
    }
  }

  lemma CallCloseLoses(s: State, now: TimeVal, c: nat)
    requires Linked(s) && c in s.calls
    ensures CallClose(s, now, c).lost == s.lost
  {
    var t := s.calls[c].tunnel;
    assert CallLinked(s, c) && TunnelLinked(s, t);
    if c == s.tunnels[t].self {
      CloseTunnelLoses(s, now, t);
      hide CloseTunnel;
    } else {
      DestroyCallIs(s, now, c);
      hide DestroyCall, TunnelLinked;
    }
  }

  lemma RetransmitLoses(s: State, now: TimeVal, b: Buf, maxRetries: nat)
    requires Linked(s) && b.tunnel in s.tunnels
    ensures Retransmit(s, now, b, maxRetries).lost == s.lost
  {
    assert TunnelLinked(s, b.tunnel);
    var s1 := GiveUp(s, s.tunnels[b.tunnel].self);
    assert s1.lost == s.lost && TunnelLinked(s1, b.tunnel);
    CloseTunnelLoses(s1, now, b.tunnel);
    hide CloseTunnel, Linked, TunnelLinked, GiveUp;
  }

  lemma FireLoses(s: State, now: TimeVal, maxRetries: nat)
    requires s.events != [] && Linked(s) && AllLive(s)
    ensures FireFirst(s, now, maxRetries).lost == s.lost
  {
    var s1, w := s.(events := s.events[1..]), s.events[0].data;
    assert Live(s, w) && SameLinks(s, s1);
    hide Linked, AllLive, SameLinks, Retransmit;
    SameLinksLinked(s, s1);
    if w.Transmit? {
      RetransmitLoses(s1, now, w.buf, maxRetries);
    }
  }

  /** What a call had before is lost with an assignment, and with nothing else. */
  lemma StepLoses(s: State, now: TimeVal, a: Action)
    requires Legal(s, a) && Linked(s) && AllLive(s)
    ensures Step(s, now, a).lost ==
              s.lost + if a.Assign? then One(s.calls[s.tunnels[a.tunnel].calls[0]].addr) else {}
  {
    hide FireFirst, CallClose, Linked, AllLive;
    match a
    case Fire(maxRetries) => FireLoses(s, now, maxRetries);
    case Close(c) => CallCloseLoses(s, now, c);
    case _ =>
  }

  /** Every assignment is to a call that has no address. */
  ghost predicate GivenOnce(s: State, run: seq<(TimeVal, Action)>)
    requires LegalRun(s, run)
    decreases |run|
  {
    run == [] ||
    (&& (run[0].1.Assign? ==> s.calls[s.tunnels[run[0].1.tunnel].calls[0]].addr == 0)
     && GivenOnce(Step(s, run[0].0, run[0].1), run[1..]))
  }

  lemma {:induction false} RunLoses(s: State, run: seq<(TimeVal, Action)>)
    requires LegalRun(s, run)
    ensures var f := Final(s, run); s.lost <= f.lost && (f.lost == s.lost == {} <==> s.lost == {} && GivenOnce(s, run))
    decreases |run|
  {
    if run != [] {
      StepLoses(s, run[0].0, run[0].1);
      hide Step, Legal, Linked, AllLive;
      RunLoses(Step(s, run[0].0, run[0].1), run[1..]);
    }
  }

  ghost predicate AllHeld(s: State) {
    forall x <- s.used :: Holder(s, x)
  }

  lemma HeldUnlessLost(s: State)
    requires Addressed(s)
    ensures AllHeld(s) <==> s.lost == {}
  {
    forall x <- s.lost ensures x in s.used && !Holder(s, x) {
    }
  }

  /** In every run: each reserved address belongs to a call, exactly when every assignment was
      to a call without one. */
  lemma HeldExactlyWhenGivenOnce(run: seq<(TimeVal, Action)>)
    requires LegalRun(EMPTY, run)
    ensures AllHeld(Final(EMPTY, run)) <==> GivenOnce(EMPTY, run)
  {
    EveryRun(run);
    RunLoses(EMPTY, run);
    HeldUnlessLost(Final(EMPTY, run));
    hide AllHeld, GivenOnce, LegalRun, Final, Addressed;
  }

  /** And what is lost is never given to a call again. */
  lemma LostForGood(run: seq<(TimeVal, Action)>, more: seq<(TimeVal, Action)>, x: u32)
    requires LegalRun(EMPTY, run) && LegalRun(Final(EMPTY, run), more) && x in Final(EMPTY, run).lost
    ensures var f := Final(Final(EMPTY, run), more); x in f.used && !Holder(f, x)
  {
    EmptyInv();
    RunKeepsInv(EMPTY, run);
    RunKeepsInv(Final(EMPTY, run), more);
    RunLoses(Final(EMPTY, run), more);
    var f := Final(Final(EMPTY, run), more);
    hide LegalRun, Final, Linked, AllLive, Owned;
  }

  const TEN := [AddressPool.Range(10, 10, true)]

  lemma TenIsChosen()
    ensures AddressPool.Chosen(TEN, {}, 10)
  {
    assert TEN[1..] == [];
    assert AddressPool.Candidate(TEN[0], 0) == 10 && AddressPool.Offered(TEN, {}, 0, 10);
    assert AddressPool.FirstOffer(TEN, {}, 0, 10);
    assert AddressPool.ChosenAt(TEN, {}, 0, 10);
  }

  /** A tunnel with one call, which has the only address. */
  const GIVEN := Reserve(AddCall(AddTunnel(EMPTY, 0), 0, 0), 2, 10)

  lemma GivenRun(now: TimeVal) returns (run: seq<(TimeVal, Action)>)
    ensures LegalRun(EMPTY, run) && Final(EMPTY, run) == GIVEN
  {
    var none: seq<(TimeVal, Action)> := [];
    var s1 := AddTunnel(EMPTY, 0);
    var s2 := AddCall(s1, 0, 0);
    assert s2.tunnels[0].calls == [2] && 2 in s2.calls;
    TenIsChosen();
    hide AddressPool.Chosen, Linked, AllLive, AddTunnel, AddCall, Reserve;
    assert LegalRun(EMPTY, none) && Final(EMPTY, none) == EMPTY;
    run := Longer(none, now, NewTunnel(0), EMPTY, s1);
    run := Longer(run, now, NewCall(0, 0), s1, s2);
    run := Longer(run, now, Assign(0, TEN, 10), s2, GIVEN);
  }

  /** A call that has the only address is taken for a new one: there is none to give, and the
      one it had stays reserved. */
  lemma ReassignedIsLost(now: TimeVal) returns (run: seq<(TimeVal, Action)>)
    ensures LegalRun(EMPTY, run)
    ensures var s := Final(EMPTY, run); 10 in s.used && !Holder(s, 10) && !AllHeld(s)
  {
    run := GivenRun(now);
    assert GIVEN.tunnels[0].calls == [2] && 2 in GIVEN.calls;
    var s := Reserve(GIVEN, 2, 0);
    assert s.calls.Keys == {1, 2} && s.calls[1].addr == 0 && s.calls[2].addr == 0 && 10 in s.used;
    hide Linked, AllLive, Final, LegalRun, Reserve, AddTunnel, AddCall;
    run := Longer(run, now, Assign(0, TEN, 0), GIVEN, s);
  }

  lemma FinalOne(s: State, now: TimeVal, a: Action)
    requires LegalRun(s, [(now, a)])
    ensures Final(s, [(now, a)]) == Step(s, now, a)
  {
    var none: seq<(TimeVal, Action)> := [];
    assert [(now, a)][1..] == none;
    hide Step;
  }

  lemma Longer(run: seq<(TimeVal, Action)>, now: TimeVal, a: Action, s: State, r: State)
    returns (longer: seq<(TimeVal, Action)>)
    requires LegalRun(EMPTY, run) && Final(EMPTY, run) == s && Legal(s, a)
    requires Linked(s) && AllLive(s) ==> Step(s, now, a) == r
    ensures LegalRun(EMPTY, longer) && Final(EMPTY, longer) == r
  {
    EmptyInv();
    RunExtends(EMPTY, run, now, a);
    longer := run + [(now, a)];
    EveryRun(run);
    FinalLonger(EMPTY, run, now, a);
  }

  lemma {:induction false} FinalLonger(s: State, run: seq<(TimeVal, Action)>, now: TimeVal, a: Action)
    requires LegalRun(s, run) && LegalRun(s, run + [(now, a)]) && Linked(Final(s, run)) && AllLive(Final(s, run))
    requires Legal(Final(s, run), a)
    ensures Final(s, run + [(now, a)]) == Step(Final(s, run), now, a)
    decreases |run|
  {
    hide Step, Linked, AllLive, Legal;
    if run == [] {
      assert run + [(now, a)] == [(now, a)];
      FinalOne(s, now, a);
    } else {
      assert (run + [(now, a)])[1..] == run[1..] + [(now, a)];
      FinalLonger(Step(s, run[0].0, run[0].1), run[1..], now, a);
    }
  }

  // ----- the call a packet came in on -----

  type Run = seq<(TimeVal, Action)>

  /** How a message ends: it asks for a call, whose entry may be missing, that may have no
      number or that of another, and that is given an address or not; it connects one, for
      which there may be no local address; or it closes none. */
  datatype Ending =
    | Asks(entry: bool, numbered: bool, twice: bool, assign: bool, ranges: seq<AddressPool.Range>, addr: u32)
    | Connects(exhausted: bool)
    | Other

  /** The call that is asked for is the first on the list, whichever that is. */
  function About(s: State, c: nat, m: Ending): nat
    requires Linked(s) && c in s.calls && (m.Asks? ==> s.tunnels[OwnerOf(s, c)].calls != [])
  {
    if m.Asks? then s.tunnels[OwnerOf(s, c)].calls[0] else c
  }

  function OwnerOf(s: State, c: nat): (t: nat)
    requires Linked(s) && c in s.calls
    ensures t in s.tunnels
  {
    assert CallLinked(s, c);
    s.calls[c].tunnel
  }

  predicate Refused(m: Ending) {
    match m
    case Asks(entry, numbered, twice, assign, _, x) => !entry || !numbered || (!twice && assign && x == 0)
    case Connects(exhausted) => exhausted
    case Other => false
  }

  function Refusal(now: TimeVal, p: nat, closing: bool): Run {
    [(now, Flag(p, true, closing)), (now, Close(p))]
  }

  /** What is done at the end of a message on call `c`. */
  function Finishing(s: State, now: TimeVal, c: nat, m: Ending): Run
    requires Linked(s) && c in s.calls && (m.Asks? ==> s.tunnels[OwnerOf(s, c)].calls != [])
  {
    var t, p := OwnerOf(s, c), About(s, c, m);
    assert TunnelLinked(s, t);
    if p == s.tunnels[t].self then []
    else
      var no := Refusal(now, p, s.calls[p].closing);
      match m
      case Asks(entry, numbered, twice, assign, ranges, x) =>
        if !entry then no
        else if !numbered then [(now, Close(p))]
        else if twice then [(now, Flag(p, false, true))]
        else if assign && x == 0 then [(now, Assign(t, ranges, 0))] + no
        else [(now, Assign(t, ranges, if assign then x else 0)), (now, Message(t))]
      case Connects(exhausted) => if exhausted then no else []
      case Other => []
  }

  lemma Then(s: State, now: TimeVal, a: Action, rest: Run)
    requires Inv(s, {}) && Legal(s, a)
    requires Linked(s) && AllLive(s) ==> LegalRun(Step(s, now, a), rest)
    ensures LegalRun(s, [(now, a)] + rest) && Final(s, [(now, a)] + rest) == Final(Step(s, now, a), rest)
  {
    assert ([(now, a)] + rest)[1..] == rest;
    hide Step, Legal, Linked, AllLive;
  }

  predicate IsListed(s: State, p: nat) {
    p in s.calls && s.calls[p].tunnel in s.tunnels && p != s.tunnels[s.calls[p].tunnel].self
  }

  lemma CloseFrees(s: State, now: TimeVal, p: nat)
    requires Linked(s) && IsListed(s, p)
    ensures CallClose(s, now, p).calls.Keys == s.calls.Keys - if s.calls[p].closing then {p} else {}
  {
    hide DestroyCall;
  }

  /** A run that frees these calls and no others. */
  ghost predicate Frees(s: State, run: Run, d: set<nat>) {
    LegalRun(s, run) && s.calls.Keys - Final(s, run).calls.Keys == d
  }

  function Dying(s: State, p: nat): set<nat>
    requires p in s.calls
  {
    if s.calls[p].closing then {p} else {}
  }

  lemma FreesNone(s: State)
    ensures Frees(s, [], {})
  {
  }

  lemma InvParts(s: State)
    requires Inv(s, {})
    ensures Linked(s) && AllLive(s)
  {
    hide Linked, AllLive, Owned, Addressed, Handed;
  }

  lemma CloseRun(s: State, now: TimeVal, p: nat)
    requires Inv(s, {}) && IsListed(s, p)
    ensures Frees(s, [(now, Close(p))], Dying(s, p))
  {
    hide Inv, Linked, AllLive, CallClose;
    InvParts(s);
    CloseFrees(s, now, p);
    assert LegalRun(s, [(now, Close(p))]);
    FinalOne(s, now, Close(p));
  }

  /** Neither its flags nor an address nor a message free a call. */
  predicate Quiet(a: Action, p: nat) {
    a.Assign? || a.Message? || (a.Flag? && a.call == p)
  }

  lemma KeepsCalls(s: State, now: TimeVal, a: Action, p: nat)
    requires Legal(s, a) && Linked(s) && AllLive(s) && IsListed(s, p) && Quiet(a, p)
    ensures var r := Step(s, now, a);
            && r.calls.Keys == s.calls.Keys && IsListed(r, p)
            && r.calls[p].closing == if a.Flag? then a.closing else s.calls[p].closing
  {
    hide Linked, AllLive, AddressPool.Chosen;
  }

  lemma QuietThen(s: State, now: TimeVal, a: Action, p: nat, rest: Run, d: set<nat>)
    requires Inv(s, {}) && Legal(s, a) && Linked(s) && AllLive(s) && IsListed(s, p) && Quiet(a, p)
    requires Frees(Step(s, now, a), rest, d)
    ensures Frees(s, [(now, a)] + rest, d)
  {
    hide Inv, Linked, AllLive, Step, Legal, LegalRun, Final, IsListed, Quiet;
    KeepsCalls(s, now, a, p);
    Then(s, now, a, rest);
  }

  lemma FlagThen(s: State, now: TimeVal, p: nat, closing: bool)
    requires Inv(s, {}) && IsListed(s, p)
    ensures Legal(s, Flag(p, true, closing)) && Quiet(Flag(p, true, closing), p)
    ensures Legal(s, Flag(p, false, closing)) && Quiet(Flag(p, false, closing), p)
  {
    hide Inv;
  }

  lemma RefusalRun(s: State, now: TimeVal, p: nat)
    requires Inv(s, {}) && IsListed(s, p)
    ensures Frees(s, Refusal(now, p, s.calls[p].closing), Dying(s, p))
  {
    var a, rest := Flag(p, true, s.calls[p].closing), [(now, Close(p))];
    assert Refusal(now, p, s.calls[p].closing) == [(now, a)] + rest;
    hide Inv, Linked, AllLive, Step, Legal, Frees, IsListed, Quiet, Refusal;
    InvParts(s);
    FlagThen(s, now, p, s.calls[p].closing);
    KeepsCalls(s, now, a, p);
    StepKeepsInv(s, now, a);
    CloseRun(Step(s, now, a), now, p);
    QuietThen(s, now, a, p, rest, Dying(s, p));
  }

  lemma QuietRun(s: State, now: TimeVal, a: Action, p: nat)
    requires Inv(s, {}) && Legal(s, a) && IsListed(s, p) && Quiet(a, p)
    ensures Frees(s, [(now, a)], {})
  {
    hide Inv, Linked, AllLive, Step, Legal, Frees, IsListed, Quiet;
    InvParts(s);
    FreesNone(Step(s, now, a));
    var none: Run := [];
    QuietThen(s, now, a, p, none, {});
    assert [(now, a)] + none == [(now, a)];
  }

  lemma AssignRun(s: State, now: TimeVal, a: Action, p: nat)
    requires Inv(s, {}) && a.Assign? && Legal(s, a) && IsListed(s, p)
    ensures Frees(s, [(now, a)] + Refusal(now, p, s.calls[p].closing), Dying(s, p))
    ensures Frees(s, [(now, a), (now, Message(a.tunnel))], {})
  {
    assert Quiet(a, p) && Quiet(Message(a.tunnel), p);
    var rest := [(now, Message(a.tunnel))];
    assert [(now, a), (now, Message(a.tunnel))] == [(now, a)] + rest;
    hide Inv, Linked, AllLive, Frees, IsListed, Quiet, Refusal, AddressPool.Chosen;
    InvParts(s);
    var r := Step(s, now, a);
    assert Legal(r, Message(a.tunnel));
    hide Step, Legal;
    KeepsCalls(s, now, a, p);
    StepKeepsInv(s, now, a);
    RefusalRun(r, now, p);
    QuietThen(s, now, a, p, Refusal(now, p, s.calls[p].closing), Dying(s, p));
    QuietRun(r, now, Message(a.tunnel), p);
    QuietThen(s, now, a, p, rest, {});
  }

  /** The first of a tunnel's calls, or any that is not its own record, is on the list. */
  lemma AboutIsListed(s: State, c: nat, m: Ending)
    requires Linked(s) && c in s.calls && (m.Asks? ==> s.tunnels[OwnerOf(s, c)].calls != [])
    ensures var p := About(s, c, m);
            && p in s.calls && s.calls[p].tunnel == OwnerOf(s, c)
            && (m.Asks? ==> IsListed(s, p)) && (IsListed(s, p) <==> p != s.tunnels[OwnerOf(s, c)].self)
  {
    assert TunnelLinked(s, OwnerOf(s, c));
    hide Distinct;
  }

  /** The address is one that the search found, if it found one. */
  predicate Allotted(s: State, c: nat, m: Ending)
    requires Linked(s) && c in s.calls
  {
    m.Asks? ==>
      s.tunnels[OwnerOf(s, c)].calls != [] && (m.addr == 0 || AddressPool.Chosen(m.ranges, s.used, m.addr))
  }

  lemma AllottedLegal(s: State, c: nat, m: Ending)
    requires Linked(s) && c in s.calls && Allotted(s, c, m) && m.Asks?
    ensures Legal(s, Assign(OwnerOf(s, c), m.ranges, if m.assign then m.addr else 0))
  {
    hide AddressPool.Chosen;
    AboutIsListed(s, c, m);
  }

  lemma AskedFrees(s: State, now: TimeVal, c: nat, m: Ending)
    requires Inv(s, {}) && Linked(s) && c in s.calls && Allotted(s, c, m) && m.Asks?
    ensures var p := About(s, c, m);
            p in s.calls && Frees(s, Finishing(s, now, c, m), if Refused(m) then Dying(s, p) else {})
  {
    var p := About(s, c, m);
    AboutIsListed(s, c, m);
    hide Inv, Linked, Frees, About, IsListed, Refusal, Allotted, Dying, Legal, Quiet;
    RefusalRun(s, now, p);
    CloseRun(s, now, p);
    FlagThen(s, now, p, true);
    QuietRun(s, now, Flag(p, false, true), p);
    AllottedLegal(s, c, m);
    AssignRun(s, now, Assign(OwnerOf(s, c), m.ranges, if m.assign then m.addr else 0), p);
  }

  /** Handling a packet frees a call exactly if the one it is about is refused while it is
      already closing. */
  lemma PacketFrees(s: State, now: TimeVal, c: nat, m: Ending)
    requires Inv(s, {}) && Linked(s) && c in s.calls && Allotted(s, c, m)
    ensures var p := About(s, c, m);
            && p in s.calls
            && Frees(s, Finishing(s, now, c, m), if Refused(m) && IsListed(s, p) then Dying(s, p) else {})
  {
    var p := About(s, c, m);
    AboutIsListed(s, c, m);
    hide Inv, Linked, Frees, IsListed, Refusal, Allotted, Dying;
    if m.Asks? {
      AskedFrees(s, now, c, m);
    } else {
      FreesNone(s);
      if IsListed(s, p) {
        RefusalRun(s, now, p);
      }
    }
  }

  /** The call a packet came in on is gone after it exactly if it was closing, and the packet
      connects it or has it, as the first of the list, taken for the one that is asked for,
      and that is refused. */
  lemma OwnCallFreed(s: State, now: TimeVal, c: nat, m: Ending)
    requires Inv(s, {}) && Linked(s) && c in s.calls && Allotted(s, c, m)
    ensures var run := Finishing(s, now, c, m);
            && LegalRun(s, run)
            && (c !in Final(s, run).calls <==>
                  c == About(s, c, m) && IsListed(s, c) && s.calls[c].closing && Refused(m))
  {
    PacketFrees(s, now, c, m);
    hide Inv, Linked, LegalRun, Final, IsListed, Refused, Finishing, Allotted, About;
    var f := Final(s, Finishing(s, now, c, m)).calls.Keys;
    assert c !in f <==> c in s.calls.Keys - f;
  }

  lemma OneStep(s: State, now: TimeVal, a: Action)
    requires Inv(s, {}) && Linked(s) && AllLive(s) && Legal(s, a)
    ensures LegalRun(s, [(now, a)]) && Final(s, [(now, a)]) == Step(s, now, a)
  {
    var none: Run := [];
    assert [(now, a)][1..] == none;
    hide Inv, Linked, AllLive, Legal, Step;
  }

  lemma TwoSteps(s: State, now: TimeVal, a: Action, b: Action)
    requires Inv(s, {}) && Linked(s) && AllLive(s) && Legal(s, a) && Legal(Step(s, now, a), b)
    ensures var run, s1 := [(now, a)] + [(now, b)], Step(s, now, a);
            LegalRun(s, run) && Linked(s1) && AllLive(s1) && Final(s, run) == Step(s1, now, b)
  {
    hide *;
    StepKeepsInv(s, now, a);
    InvParts(Step(s, now, a));
    OneStep(Step(s, now, a), now, b);
    Then(s, now, a, [(now, b)]);
  }

  /** A call that is asked for twice is closed without a word. */
  lemma AskedTwiceIsDropped(s: State, now: TimeVal, c: nat, m: Ending)
    requires Inv(s, {}) && Linked(s) && c in s.calls && Allotted(s, c, m) && m.Asks? && !Refused(m) && m.twice
    ensures var run, p := Finishing(s, now, c, m), About(s, c, m);
            && LegalRun(s, run) && p in s.calls
            && Final(s, run) == s.(calls := s.calls[p := s.calls[p].(needclose := false, closing := true)])
  {
    var p := About(s, c, m);
    AboutIsListed(s, c, m);
    assert Finishing(s, now, c, m) == [(now, Flag(p, false, true))];
    hide Inv, Linked, AllLive, Finishing, About, Allotted;
    InvParts(s);
    OneStep(s, now, Flag(p, false, true));
  }

  /** Any other that is not refused is answered: it has the address found for it, or none if none
      is to be given, and a message has been numbered. */
  lemma AskedIsAnswered(s: State, now: TimeVal, c: nat, m: Ending)
    requires Inv(s, {}) && Linked(s) && c in s.calls && Allotted(s, c, m) && m.Asks? && !Refused(m) && !m.twice
    ensures var run, t, p := Finishing(s, now, c, m), OwnerOf(s, c), About(s, c, m);
            && LegalRun(s, run) && p in s.calls
            && var r := Final(s, run);
               && r.calls == s.calls[p := s.calls[p].(addr := if m.assign then m.addr else 0)]
               && t in r.tunnels && r.tunnels[t].ns == (s.tunnels[t].ns + 1) % 65536 && r.nbuf == s.nbuf + 1
  {
    var t, x := OwnerOf(s, c), if m.assign then m.addr else 0;
    var a := Assign(t, m.ranges, x);
    FinishingIs(s, now, c, m);
    hide *;
    AllottedLegal(s, c, m);
    AnswerRun(s, now, a);
  }

  lemma FinishingIs(s: State, now: TimeVal, c: nat, m: Ending)
    requires Linked(s) && c in s.calls && Allotted(s, c, m) && m.Asks? && !Refused(m) && !m.twice
    ensures var t, x := OwnerOf(s, c), if m.assign then m.addr else 0;
            && Finishing(s, now, c, m) == [(now, Assign(t, m.ranges, x)), (now, Message(t))]
            && s.tunnels[t].calls != [] && About(s, c, m) == s.tunnels[t].calls[0]
  {
    AboutIsListed(s, c, m);
    hide Linked, AddressPool.Chosen;
  }

  lemma AnswerRun(s: State, now: TimeVal, a: Action)
    requires Inv(s, {}) && Legal(s, a) && a.Assign?
    ensures var run, t, p := [(now, a), (now, Message(a.tunnel))], a.tunnel, s.tunnels[a.tunnel].calls[0];
            && LegalRun(s, run)
            && var r := Final(s, run);
               && r.calls == s.calls[p := s.calls[p].(addr := a.addr)]
               && t in r.tunnels && r.tunnels[t].ns == (s.tunnels[t].ns + 1) % 65536 && r.nbuf == s.nbuf + 1
  {
    hide Inv, Linked, AllLive, AddressPool.Chosen, Insert;
    InvParts(s);
    var s1, b := Step(s, now, a), Message(a.tunnel);
    assert s1 == Reserve(s, s.tunnels[a.tunnel].calls[0], a.addr) && Legal(s1, b);
    TwoSteps(s, now, a, b);
    assert [(now, a)] + [(now, b)] == [(now, a), (now, b)];
    hide LegalRun, Final;
  }

  // ----- what a timer does -----

  /** The queue without its first event, which is running. */
  function Rest(s: State): State
    requires s.events != []
  {
    s.(events := s.events[1..])
  }

  /** A Hello that is due: a message is numbered, and the next Hello is due in a minute. */
  lemma FiredHello(s: State, now: TimeVal, maxRetries: nat, t: nat)
    requires s.events != [] && Linked(s) && AllLive(s) && s.events[0].data == Hello(t) && now.Normal()
    ensures t in s.tunnels
    ensures var r := FireFirst(s, now, maxRetries);
            && t in r.tunnels && r.tunnels[t].ns == (s.tunnels[t].ns + 1) % 65536 && r.nbuf == s.nbuf + 1
            && r.calls == s.calls && DaemonEffects.Adds(Send(Rest(s), now, t), r, now, 60, Hello(t))
  {
    assert Live(s, s.events[0].data);
    hide Linked, AllLive, DaemonEffects.Adds, Send, SayHello;
    assert FireFirst(s, now, maxRetries) == SayHello(Rest(s), now, t);
    DaemonEffects.SendQueues(Rest(s), now, t);
    DaemonEffects.HelloQueues(Rest(s), now, t);
  }

  /** A message that is due, is not acknowledged and may go out again: it is queued for after the
      next pause, and nothing else changes. */
  lemma FiredMessage(s: State, now: TimeVal, maxRetries: nat, b: Buf)
    requires s.events != [] && Linked(s) && AllLive(s) && s.events[0].data == Transmit(b) && now.Normal()
    requires b.tunnel in s.tunnels && b.ns >= s.tunnels[b.tunnel].cLr && b.retries < maxRetries
    ensures var r := FireFirst(s, now, maxRetries);
            && r == s.(events := r.events, scheduled := s.scheduled + 1)
            && DaemonEffects.Adds(Rest(s), r, now, DaemonEffects.Pause(b.retries),
                                  Transmit(b.(retries := b.retries + 1)))
  {
    assert SameLinks(s, Rest(s));
    hide Linked, AllLive, DaemonEffects.Adds, DaemonEffects.Pause, SameLinks, Retransmit;
    SameLinksLinked(s, Rest(s));
    assert FireFirst(s, now, maxRetries) == Retransmit(Rest(s), now, b, maxRetries);
    DaemonEffects.ResentWhileAllowed(Rest(s), now, b, maxRetries);
  }

  /** A redial that is due is no longer waited for, if the connection is still active. */
  lemma FiredDial(s: State, now: TimeVal, maxRetries: nat, lac: int)
    requires s.events != [] && Linked(s) && AllLive(s) && s.events[0].data == Dial(lac)
    ensures var r := FireFirst(s, now, maxRetries);
            && r == s.(events := s.events[1..], lacs := r.lacs) && r.lacs.Keys == s.lacs.Keys
            && (lac in s.lacs && s.lacs[lac].active ==> r.lacs[lac] == s.lacs[lac].(rsched := false))
            && (lac in s.lacs && !s.lacs[lac].active ==> r.lacs[lac] == s.lacs[lac])
            && (forall l <- s.lacs.Keys :: l != lac ==> r.lacs[l] == s.lacs[l])
  {
    hide Linked, AllLive;
  }
}
