/** A tunnel and the clock: Hello messages, retransmission with
    growing pauses, and the two-phase close, whether the peer answers or has fallen silent.

    Times are whole seconds, as every delay the daemon asks for here is. Time moves
    on only when nothing is due, that is, timers run on time. */
module Keepalive {
  import opened Words
  import opened Endpoint

  const HELLO_DELAY := 60

  datatype Event = Hello(due: nat) | Retransmit(due: nat, number: nat, retries: nat)

  /** `number` counts the messages numbered so far; `xmits` counts, per message, how often
      it went out, and `first` says when it first did. */
  datatype State = State(now: nat, events: seq<Event>, number: nat, cLr: int, needClose: bool, closing: bool,
                         alive: bool, xmits: map<nat, nat>, first: map<nat, nat>)

  /** `Hear` is a message that is next in the peer's sequence: its Nr is taken as it is. */
  datatype Step = Tick | Fire(k: nat) | Send | Close | Hear(nr: u16)

  predicate Silent(run: seq<Step>) {
    forall step <- run :: !step.Hear?
  }

  predicate Enabled(s: State, step: Step) {
    s.alive &&
    match step
    case Tick => forall e <- s.events :: s.now < e.due
    case Fire(k) => k < |s.events| && s.events[k].due <= s.now
    case Send => true
    case Close => true
    case Hear(_) => true
  }

  /** Number a message and transmit it for the first time. */
  function Submit(s: State, maxRetries: nat): State {
    var s1 := s.(number := s.number + 1);
    match Xmit(Wrap(s.number), s.cLr, 0, maxRetries)
    case Sent(delay) =>
      s1.(events := s.events + [Retransmit(s.now + delay, s.number, 1)], xmits := s.xmits[s.number := 1],
          first := s.first[s.number := s.now])
    case _ => s1
  }

  function Destroyed(s: State): State {
    s.(events := [], alive := false)
  }

  /** Drop what is queued, then destroy the tunnel or send its StopCCN. */
  function CloseTunnel(s: State, maxRetries: nat): State {
    if s.closing then Destroyed(s)
    else Submit(s.(events := []), maxRetries).(closing := true)
  }

  function SayHello(s: State, maxRetries: nat): State {
    var s1 := Submit(s, maxRetries);
    s1.(events := s1.events + [Hello(s.now + HELLO_DELAY)])
  }

  /** The timer of a message that has been tried `retries` times. */
  function TryAgain(s: State, n: nat, retries: nat, maxRetries: nat): State {
    match Xmit(Wrap(n), s.cLr, retries, maxRetries)
    case Tossed => s
    case Sent(delay) =>
      s.(events := s.events + [Retransmit(s.now + delay, n, retries + 1)],
         xmits := s.xmits[n := (if n in s.xmits then s.xmits[n] else 0) + 1])
    case GivenUp => if s.needClose then Destroyed(s) else CloseTunnel(s.(needClose := true), maxRetries)
  }

  function Next(s: State, step: Step, maxRetries: nat): State
    requires Enabled(s, step)
  {
    match step
    case Tick => s.(now := s.now + 1)
    case Hear(nr) => s.(cLr := nr)
    case Send => Submit(s, maxRetries)
    case Close => CloseTunnel(s, maxRetries)
    case Fire(k) =>
      var s1 := s.(events := s.events[..k] + s.events[k + 1..]);
      match s.events[k]
      case Hello(_) => SayHello(s1, maxRetries)
      case Retransmit(_, n, retries) => TryAgain(s1, n, retries, maxRetries)
  }

  predicate Legal(s: State, run: seq<Step>, maxRetries: nat)
    decreases |run|, 0
  {
    run == [] ||
    (Legal(s, run[..|run| - 1], maxRetries) &&
     Enabled(Final(s, run[..|run| - 1], maxRetries), run[|run| - 1]))
  }

  function Final(s: State, run: seq<Step>, maxRetries: nat): State
    requires Legal(s, run, maxRetries)
    decreases |run|, 1
  {
    if run == [] then s
    else Next(Final(s, run[..|run| - 1], maxRetries), run[|run| - 1], maxRetries)
  }

  // ----- how long a message is tried -----

  /** The pauses still to come for a message tried `retries` times. */
  function Rest(retries: nat, maxRetries: nat): nat
    decreases maxRetries - retries
  {
    if retries >= maxRetries then 0 else Delay(retries + 1) + Rest(retries + 1, maxRetries)
  }

  lemma {:induction false} RestIsPowers(retries: nat, maxRetries: nat)
    requires retries <= maxRetries <= 32
    ensures Rest(retries, maxRetries) == Pow2(maxRetries) - Pow2(retries)
    decreases maxRetries - retries
  {
    if retries < maxRetries {
      RestIsPowers(retries + 1, maxRetries);
    }
  }

  // ----- the deadline -----

  /** The latest time at which the event brings the tunnel down by itself. */
  function Doom(e: Event, closing: bool, maxRetries: nat): nat {
    match e
    case Hello(due) => due + 2 * Rest(0, maxRetries)
    case Retransmit(due, _, retries) => due + Rest(retries, maxRetries) + (if closing then 0 else Rest(0, maxRetries))
  }

  /** Not yet acknowledged, so the event will not just be tossed. */
  predicate Pending(e: Event, cLr: int) {
    e.Hello? || e.number >= cLr
  }

  ghost predicate Doomed(s: State, deadline: nat, maxRetries: nat) {
    exists k :: 0 <= k < |s.events| && Pending(s.events[k], s.cLr)
        && Doom(s.events[k], s.closing, maxRetries) <= deadline
  }

  ghost predicate OnTime(s: State) {
    && s.cLr <= s.number
    && (forall e <- s.events :: s.now <= e.due)
    && (forall e <- s.events :: e.Retransmit? ==> e.number < s.number)
    && (forall e <- s.events :: s.closing ==> e.Retransmit?)
  }

  lemma SubmitOnTime(s: State, maxRetries: nat)
    requires OnTime(s)
    ensures OnTime(Submit(s, maxRetries))
  {
  }

  lemma CloseOnTime(s: State, maxRetries: nat)
    requires OnTime(s)
    ensures OnTime(CloseTunnel(s, maxRetries))
  {
    assert OnTime(s.(events := []));
    SubmitOnTime(s.(events := []), maxRetries);
    var s1 := Submit(s.(events := []), maxRetries);
    assert forall e <- s1.events :: e.Retransmit?;
  }

  lemma RemoveOnTime(s: State, k: nat)
    requires OnTime(s) && k < |s.events|
    ensures OnTime(s.(events := s.events[..k] + s.events[k + 1..]))
  {
  }

  lemma AppendOnTime(s: State, e: Event, xmits: map<nat, nat>)
    requires OnTime(s) && s.now <= e.due && (e.Retransmit? ==> e.number < s.number) && (s.closing ==> e.Retransmit?)
    ensures OnTime(s.(events := s.events + [e], xmits := xmits))
  {
  }

  lemma HelloOnTime(s: State, maxRetries: nat)
    requires OnTime(s) && !s.closing
    ensures OnTime(SayHello(s, maxRetries))
  {
    hide OnTime, Submit;
    SubmitOnTime(s, maxRetries);
    SubmitKeeps(s, maxRetries);
    var s1 := Submit(s, maxRetries);
    AppendOnTime(s1, Hello(s.now + HELLO_DELAY), s1.xmits);
  }

  lemma TryAgainOnTime(s: State, n: nat, retries: nat, maxRetries: nat)
    requires OnTime(s) && n < s.number
    ensures OnTime(TryAgain(s, n, retries, maxRetries))
  {
    assert OnTime(s.(needClose := true)) && OnTime(Destroyed(s));
    hide OnTime, CloseTunnel, Destroyed;
    CloseOnTime(s.(needClose := true), maxRetries);
    var x := Xmit(Wrap(n), s.cLr, retries, maxRetries);
    if x.Sent? {
      AppendOnTime(s, Retransmit(s.now + x.delay, n, retries + 1),
                   s.xmits[n := (if n in s.xmits then s.xmits[n] else 0) + 1]);
    }
  }

  lemma StepKeepsOnTime(s: State, step: Step, maxRetries: nat)
    requires OnTime(s) && Enabled(s, step) && !step.Hear?
    ensures OnTime(Next(s, step, maxRetries))
  {
    match step
    case Tick =>
    case Send => SubmitOnTime(s, maxRetries);
    case Close => CloseOnTime(s, maxRetries);
    case Fire(k) =>
      var s1, e := s.(events := s.events[..k] + s.events[k + 1..]), s.events[k];
      assert e in s.events;
      assert (e.Retransmit? ==> e.number < s.number) && (s.closing ==> e.Retransmit?);
      hide OnTime, SayHello, TryAgain;
      RemoveOnTime(s, k);
      match e
      case Hello(_) => HelloOnTime(s1, maxRetries);
      case Retransmit(_, n, retries) => TryAgainOnTime(s1, n, retries, maxRetries);
  }

  lemma SubmitKeeps(s: State, maxRetries: nat)
    ensures Submit(s, maxRetries).now == s.now && Submit(s, maxRetries).closing == s.closing
  {
  }

  /** As long as the tunnel is not closing there is time left for a StopCCN. */
  lemma TimeToClose(s: State, deadline: nat, maxRetries: nat)
    requires OnTime(s) && Doomed(s, deadline, maxRetries) && !s.closing
    ensures s.now + Rest(0, maxRetries) <= deadline
  {
    var k :| 0 <= k < |s.events| && Pending(s.events[k], s.cLr) && Doom(s.events[k], s.closing, maxRetries) <= deadline;
    assert s.events[k] in s.events;
  }

  lemma CloseKeepsDoomed(s: State, deadline: nat, maxRetries: nat)
    requires maxRetries > 0 && s.cLr <= s.number < 0x1_0000
    requires !s.closing ==> s.now + Rest(0, maxRetries) <= deadline
    ensures var s1 := CloseTunnel(s, maxRetries); s1.alive ==> Doomed(s1, deadline, maxRetries)
  {
    var s1 := CloseTunnel(s, maxRetries);
    if !s.closing {
      assert s1.events == [Retransmit(s.now + Delay(1), s.number, 1)];
      assert Doom(s1.events[0], true, maxRetries) == s.now + Rest(0, maxRetries);
    }
  }

  lemma {:induction false} SubmitKeepsDoomed(s: State, deadline: nat, maxRetries: nat)
    requires Doomed(s, deadline, maxRetries)
    ensures Doomed(Submit(s, maxRetries), deadline, maxRetries)
  {
    hide Doom;
    var k :| 0 <= k < |s.events| && Pending(s.events[k], s.cLr) && Doom(s.events[k], s.closing, maxRetries) <= deadline;
    assert Submit(s, maxRetries).events[k] == s.events[k];
  }

  /** Firing the event the deadline rests on hands it on to the next one. */
  lemma FireKeepsDoomed(s: State, k: nat, deadline: nat, maxRetries: nat)
    requires OnTime(s) && Enabled(s, Fire(k)) && maxRetries > 0
    requires s.number < 0x1_0000 && Pending(s.events[k], s.cLr) && Doom(s.events[k], s.closing, maxRetries) <= deadline
    ensures var s1 := Next(s, Fire(k), maxRetries); s1.alive ==> Doomed(s1, deadline, maxRetries)
  {
    var e := s.events[k];
    assert e in s.events;
    var s1 := Next(s, Fire(k), maxRetries);
    var rest := s.events[..k] + s.events[k + 1..];
    assert e.due == s.now;
    match e
    case Hello(_) =>
      assert s1.events[|rest|] == Retransmit(s.now + Delay(1), s.number, 1);
      assert Doom(s1.events[|rest|], s.closing, maxRetries) <= s.now + 2 * Rest(0, maxRetries);
    case Retransmit(_, n, retries) =>
      match Xmit(Wrap(n), s.cLr, retries, maxRetries)
      case Sent(delay) =>
        assert s1.events[|rest|] == Retransmit(s.now + delay, n, retries + 1);
        assert Rest(retries, maxRetries) == delay + Rest(retries + 1, maxRetries);
      case GivenUp =>
        if !s.needClose {
          CloseKeepsDoomed(s.(events := rest, needClose := true), deadline, maxRetries);
        }
      case Tossed =>
  }

  lemma HelloKeepsQueue(s: State, maxRetries: nat)
    ensures var r := SayHello(s, maxRetries); s.events <= r.events && r.closing == s.closing && r.cLr == s.cLr
  {
  }

  lemma TryAgainKeepsQueue(s: State, n: nat, retries: nat, maxRetries: nat)
    ensures var r := TryAgain(s, n, retries, maxRetries);
            || (s.events <= r.events && r.closing == s.closing && r.cLr == s.cLr)
            || !r.alive || r == CloseTunnel(s.(needClose := true), maxRetries)
  {
    hide CloseTunnel;
  }

  lemma QueueKeepsDoomed(s: State, r: State, w: nat, deadline: nat, maxRetries: nat)
    requires w < |s.events| && s.events <= r.events && r.closing == s.closing && r.cLr == s.cLr
    requires Pending(s.events[w], s.cLr) && Doom(s.events[w], s.closing, maxRetries) <= deadline
    ensures Doomed(r, deadline, maxRetries)
  {
    hide Doom;
    assert r.events[w] == s.events[w];
  }

  /** Firing any other event leaves that event queued, or closes the tunnel in time. */
  lemma FireOtherKeepsDoomed(s: State, k: nat, w: nat, deadline: nat, maxRetries: nat)
    requires OnTime(s) && Enabled(s, Fire(k)) && maxRetries > 0 && s.number < 0x1_0000
    requires w < |s.events| && w != k
    requires Pending(s.events[w], s.cLr) && Doom(s.events[w], s.closing, maxRetries) <= deadline
    ensures var s1 := Next(s, Fire(k), maxRetries); s1.alive ==> Doomed(s1, deadline, maxRetries)
  {
    var rest := s.events[..k] + s.events[k + 1..];
    var s1, w1 := s.(events := rest), if w < k then w else w - 1;
    assert rest[w1] == s.events[w];
    assert s.cLr <= s.number;
    assert Doomed(s, deadline, maxRetries);
    hide OnTime, Doomed, SayHello, TryAgain, Doom;
    if !s.closing {
      TimeToClose(s, deadline, maxRetries);
    }
    CloseKeepsDoomed(s1.(needClose := true), deadline, maxRetries);
    match s.events[k]
    case Hello(_) =>
      HelloKeepsQueue(s1, maxRetries);
      QueueKeepsDoomed(s1, SayHello(s1, maxRetries), w1, deadline, maxRetries);
    case Retransmit(_, n, retries) =>
      TryAgainKeepsQueue(s1, n, retries, maxRetries);
      var r := TryAgain(s1, n, retries, maxRetries);
      if s1.events <= r.events && r.closing == s1.closing && r.cLr == s1.cLr {
        QueueKeepsDoomed(s1, r, w1, deadline, maxRetries);
      }
  }

  lemma StepKeepsDoomed(s: State, step: Step, deadline: nat, maxRetries: nat)
    requires OnTime(s) && Enabled(s, step) && !step.Hear? && maxRetries > 0
    requires Doomed(s, deadline, maxRetries) && s.number < 0x1_0000
    ensures var s1 := Next(s, step, maxRetries); s1.alive ==> Doomed(s1, deadline, maxRetries)
  {
    match step
    case Tick =>
    case Send => SubmitKeepsDoomed(s, deadline, maxRetries);
    case Close =>
      if !s.closing {
        TimeToClose(s, deadline, maxRetries);
      }
      CloseKeepsDoomed(s, deadline, maxRetries);
    case Fire(k) =>
      var w :| 0 <= w < |s.events| && Pending(s.events[w], s.cLr)
          && Doom(s.events[w], s.closing, maxRetries) <= deadline;
      if w == k {
        FireKeepsDoomed(s, k, deadline, maxRetries);
      } else {
        FireOtherKeepsDoomed(s, k, w, deadline, maxRetries);
      }
  }

  lemma {:induction false} RunKeepsDoomed(s: State, run: seq<Step>, deadline: nat, maxRetries: nat)
    requires OnTime(s) && Doomed(s, deadline, maxRetries) && maxRetries > 0
    requires Silent(run) && Legal(s, run, maxRetries) && Final(s, run, maxRetries).number < 0x1_0000
    ensures var f := Final(s, run, maxRetries); OnTime(f) && (f.alive ==> Doomed(f, deadline, maxRetries))
    decreases |run|
  {
    if run != [] {
      var f, last := Final(s, run[..|run| - 1], maxRetries), run[|run| - 1];
      assert last in run;
      NumbersGrow(f, last, maxRetries);
      RunKeepsDoomed(s, run[..|run| - 1], deadline, maxRetries);
      StepKeepsOnTime(f, last, maxRetries);
      StepKeepsDoomed(f, last, deadline, maxRetries);
    }
  }

  lemma NumbersGrow(s: State, step: Step, maxRetries: nat)
    requires Enabled(s, step)
    ensures s.number <= Next(s, step, maxRetries).number
  {
  }

  /** An established tunnel: it runs, and its next Hello is at most a minute away. */
  ghost predicate Established(s: State) {
    && s.alive && !s.needClose && !s.closing && OnTime(s)
    && exists k :: 0 <= k < |s.events| && s.events[k].Hello? && s.events[k].due <= s.now + HELLO_DELAY
  }

  /** However the run goes on, without a word from the peer the tunnel is gone
      after the next Hello and twice the full series of retries. */
  lemma SilentPeerIsDropped(s: State, run: seq<Step>, maxRetries: nat)
    requires Established(s) && maxRetries > 0
    requires Silent(run) && Legal(s, run, maxRetries) && Final(s, run, maxRetries).number < 0x1_0000
    ensures var f := Final(s, run, maxRetries);
            f.alive ==> f.now <= s.now + HELLO_DELAY + 2 * Rest(0, maxRetries)
    ensures var f := Final(s, run, maxRetries);
            f.alive && maxRetries <= 32 ==> f.now <= s.now + 60 + 2 * (Pow2(maxRetries) - 1)
  {
    var deadline := s.now + HELLO_DELAY + 2 * Rest(0, maxRetries);
    var k :| 0 <= k < |s.events| && s.events[k].Hello? && s.events[k].due <= s.now + HELLO_DELAY;
    assert Doom(s.events[k], s.closing, maxRetries) <= deadline;
    RunKeepsDoomed(s, run, deadline, maxRetries);
    var f := Final(s, run, maxRetries);
    if f.alive {
      var w :| 0 <= w < |f.events| && Pending(f.events[w], f.cLr)
          && Doom(f.events[w], f.closing, maxRetries) <= deadline;
      assert f.events[w] in f.events;
    }
    if maxRetries <= 32 {
      RestIsPowers(0, maxRetries);
    }
  }

  // ----- how often a message goes out -----

  ghost predicate Counted(s: State, maxRetries: nat) {
    && (forall n <- s.xmits :: n < s.number && s.xmits[n] <= maxRetries)
    && (forall e <- s.events :: e.Retransmit? ==>
          e.number < s.number && e.number in s.xmits && s.xmits[e.number] == e.retries)
    && (forall i, j :: 0 <= i < j < |s.events| && s.events[i].Retransmit? && s.events[j].Retransmit? ==>
          s.events[i].number != s.events[j].number)
  }

  lemma SubmitKeepsCounted(s: State, maxRetries: nat)
    requires Counted(s, maxRetries)
    ensures Counted(Submit(s, maxRetries), maxRetries)
  {
  }

  lemma StepKeepsCounted(s: State, step: Step, maxRetries: nat)
    requires Counted(s, maxRetries) && Enabled(s, step)
    ensures Counted(Next(s, step, maxRetries), maxRetries)
  {
    match step
    case Tick =>
    case Hear(_) =>
    case Send => SubmitKeepsCounted(s, maxRetries);
    case Close => SubmitKeepsCounted(s.(events := []), maxRetries);
    case Fire(k) =>
      FireKeepsCounted(s, k, maxRetries);
  }

  predicate Unqueued(s: State, n: nat) {
    forall e <- s.events :: e.Retransmit? ==> e.number != n
  }

  lemma RemoveKeepsCounted(s: State, k: nat, maxRetries: nat)
    requires Counted(s, maxRetries) && k < |s.events|
    ensures var s1, e := s.(events := s.events[..k] + s.events[k + 1..]), s.events[k];
            && Counted(s1, maxRetries) && Counted(s1.(events := []), maxRetries)
            && (e.Retransmit? ==> e.number < s.number && Unqueued(s1, e.number)
                                  && e.number in s.xmits && s.xmits[e.number] == e.retries)
  {
    assert s.events[k] in s.events;
  }

  lemma RetransmitKeepsCounted(s: State, e: Event, maxRetries: nat)
    requires Counted(s, maxRetries) && e.Retransmit? && e.number < s.number && e.retries <= maxRetries
    requires Unqueued(s, e.number)
    ensures Counted(s.(events := s.events + [e], xmits := s.xmits[e.number := e.retries]), maxRetries)
  {
  }

  lemma OtherFieldsKeepCounted(s: State, due: nat, needClose: bool, closing: bool, alive: bool, maxRetries: nat)
    requires Counted(s, maxRetries)
    ensures Counted(s.(events := s.events + [Hello(due)]), maxRetries)
    ensures Counted(s.(needClose := needClose, closing := closing, alive := alive), maxRetries)
  {
  }

  lemma FireKeepsCounted(s: State, k: nat, maxRetries: nat)
    requires Counted(s, maxRetries) && Enabled(s, Fire(k))
    ensures Counted(Next(s, Fire(k), maxRetries), maxRetries)
  {
    hide Counted, Submit;
    var s1 := s.(events := s.events[..k] + s.events[k + 1..]);
    RemoveKeepsCounted(s, k, maxRetries);
    match s.events[k]
    case Hello(_) =>
      SubmitKeepsCounted(s1, maxRetries);
      OtherFieldsKeepCounted(Submit(s1, maxRetries), s.now + HELLO_DELAY, false, false, false, maxRetries);
    case Retransmit(_, n, retries) =>
      match Xmit(Wrap(n), s.cLr, retries, maxRetries)
      case Sent(delay) =>
        RetransmitKeepsCounted(s1, Retransmit(s.now + delay, n, retries + 1), maxRetries);
      case GivenUp =>
        var s2 := s1.(events := [], needClose := true);
        OtherFieldsKeepCounted(s1.(events := []), 0, true, s.closing, s.alive, maxRetries);
        OtherFieldsKeepCounted(s1.(events := []), 0, s.needClose, s.closing, false, maxRetries);
        OtherFieldsKeepCounted(s2, 0, true, s.closing, false, maxRetries);
        SubmitKeepsCounted(s2, maxRetries);
        var s3 := Submit(s2, maxRetries);
        OtherFieldsKeepCounted(s3, 0, s3.needClose, true, s3.alive, maxRetries);
      case Tossed =>
  }

  /** Whatever the peer acknowledges, and when: no control message is transmitted more than
      `maxRetries` times. */
  lemma {:induction false} AtMostMaxRetries(s: State, run: seq<Step>, maxRetries: nat)
    requires Counted(s, maxRetries) && Legal(s, run, maxRetries)
    ensures var f := Final(s, run, maxRetries);
            Counted(f, maxRetries) && forall n <- f.xmits :: f.xmits[n] <= maxRetries
    decreases |run|
  {
    if run != [] {
      AtMostMaxRetries(s, run[..|run| - 1], maxRetries);
      StepKeepsCounted(Final(s, run[..|run| - 1], maxRetries), run[|run| - 1], maxRetries);
    }
  }

  // ----- and how often it must -----

  /** The pauses between the first transmission and the one after the `retries`-th. */
  function Spent(retries: nat): nat {
    if retries == 0 then 0 else Spent(retries - 1) + Delay(retries)
  }

  lemma {:induction false} SpentIsPowers(retries: nat)
    requires retries <= 32
    ensures Spent(retries) == Pow2(retries) - 1
  {
    if retries > 0 {
      SpentIsPowers(retries - 1);
    }
  }

  /** With the usual five tries: pauses of 1, 2, 4, 8 and 16 seconds, 31 in all. */
  lemma FiveTries()
    ensures Delay(1) == 1 && Delay(2) == 2 && Delay(3) == 4 && Delay(4) == 8 && Delay(5) == 16 && Spent(5) == 31
  {
    assert Pow2(2) == 4 && Pow2(3) == 2 * Pow2(2) && Pow2(4) == 2 * Pow2(3) && Pow2(5) == 2 * Pow2(4);
    SpentIsPowers(5);
  }

  /** A queued message has gone out at its first time and after each pause since, and goes out
      again after the next. */
  predicate OnSchedule(s: State, e: Event) {
    e.Retransmit? ==>
      && e.retries > 0 && e.number in s.first
      && s.first[e.number] + Spent(e.retries - 1) <= s.now <= e.due == s.first[e.number] + Spent(e.retries)
  }

  ghost predicate Paced(s: State) {
    && (forall e <- s.events :: OnSchedule(s, e) && s.now <= e.due)
    && (forall n <- s.first :: n < s.number)
  }

  lemma SubmitPaced(s: State, maxRetries: nat)
    requires Paced(s)
    ensures Paced(Submit(s, maxRetries))
  {
    assert Spent(0) == 0 && Spent(1) == Delay(1);
    var r := Submit(s, maxRetries);
    forall e <- r.events ensures OnSchedule(r, e) && r.now <= e.due {
      if e in s.events {
        assert OnSchedule(s, e);
      }
    }
  }

  lemma ClosePaced(s: State, maxRetries: nat)
    requires Paced(s)
    ensures Paced(CloseTunnel(s, maxRetries))
  {
    assert Paced(s.(events := []));
    SubmitPaced(s.(events := []), maxRetries);
    var r := Submit(s.(events := []), maxRetries);
    assert forall e <- r.events :: OnSchedule(r, e) ==> OnSchedule(r.(closing := true), e);
  }

  lemma RemovePaced(s: State, k: nat)
    requires Paced(s) && k < |s.events|
    ensures Paced(s.(events := s.events[..k] + s.events[k + 1..]))
  {
    var r := s.(events := s.events[..k] + s.events[k + 1..]);
    forall e <- r.events ensures OnSchedule(r, e) && r.now <= e.due {
      assert e in s.events && OnSchedule(s, e);
    }
  }

  lemma AppendPaced(s: State, e: Event, xmits: map<nat, nat>)
    requires Paced(s) && OnSchedule(s, e) && s.now <= e.due
    ensures Paced(s.(events := s.events + [e], xmits := xmits))
  {
    var r := s.(events := s.events + [e], xmits := xmits);
    forall d <- r.events ensures OnSchedule(r, d) && r.now <= d.due {
      assert d == e || OnSchedule(s, d);
    }
  }

  lemma TickPaced(s: State)
    requires Paced(s) && Enabled(s, Tick)
    ensures Paced(s.(now := s.now + 1))
  {
    forall e <- s.events ensures OnSchedule(s.(now := s.now + 1), e) {
      assert OnSchedule(s, e) && s.now < e.due;
    }
  }

  lemma HelloPaced(s: State, maxRetries: nat)
    requires Paced(s)
    ensures Paced(SayHello(s, maxRetries))
  {
    hide Paced, Submit;
    SubmitPaced(s, maxRetries);
    SubmitKeeps(s, maxRetries);
    var s1 := Submit(s, maxRetries);
    AppendPaced(s1, Hello(s.now + HELLO_DELAY), s1.xmits);
  }

  lemma TryAgainPaced(s: State, n: nat, retries: nat, maxRetries: nat)
    requires Paced(s) && n in s.first && retries > 0 && s.now == s.first[n] + Spent(retries)
    ensures Paced(TryAgain(s, n, retries, maxRetries))
  {
    assert Paced(Destroyed(s));
    FlagPaced(s);
    ClosePaced(s.(needClose := true), maxRetries);
    var x := Xmit(Wrap(n), s.cLr, retries, maxRetries);
    if x.Sent? {
      assert Spent(retries + 1) == Spent(retries) + x.delay;
      hide Paced, Spent;
      AppendPaced(s, Retransmit(s.now + x.delay, n, retries + 1),
                  s.xmits[n := (if n in s.xmits then s.xmits[n] else 0) + 1]);
    }
  }

  lemma FlagPaced(s: State)
    requires Paced(s)
    ensures Paced(s.(needClose := true))
  {
    var r := s.(needClose := true);
    forall e <- r.events ensures OnSchedule(r, e) && r.now <= e.due {
      assert OnSchedule(s, e);
    }
  }

  lemma FirePaced(s: State, k: nat, maxRetries: nat)
    requires Paced(s) && Enabled(s, Fire(k))
    ensures Paced(Next(s, Fire(k), maxRetries))
  {
    var e, s1 := s.events[k], s.(events := s.events[..k] + s.events[k + 1..]);
    assert e in s.events && OnSchedule(s, e) && e.due == s.now;
    hide Paced, SayHello, TryAgain, Spent;
    RemovePaced(s, k);
    match e
    case Hello(_) => HelloPaced(s1, maxRetries);
    case Retransmit(_, n, retries) => TryAgainPaced(s1, n, retries, maxRetries);
  }

  lemma StepPaced(s: State, step: Step, maxRetries: nat)
    requires Paced(s) && Enabled(s, step)
    ensures Paced(Next(s, step, maxRetries))
  {
    match step
    case Tick => TickPaced(s);
    case Send => SubmitPaced(s, maxRetries);
    case Close => ClosePaced(s, maxRetries);
    case Fire(k) => FirePaced(s, k, maxRetries);
    case Hear(nr) =>
      assert forall e <- s.events :: OnSchedule(s, e) ==> OnSchedule(s.(cLr := nr), e);
  }

  /** A message that went out as often as it may, over the whole time that takes. */
  ghost predicate Exhausted(s: State, n: nat, maxRetries: nat) {
    && n in s.xmits && s.xmits[n] == maxRetries && n in s.first && n < s.number
    && s.first[n] + Spent(maxRetries) <= s.now
  }

  /** The tunnel is closing, or gone, only on account of such a message. */
  ghost predicate Patient(s: State, maxRetries: nat) {
    s.closing || s.needClose || !s.alive ==> exists n :: Exhausted(s, n, maxRetries)
  }

  lemma SubmitKeepsExhausted(s: State, n: nat, maxRetries: nat)
    requires Exhausted(s, n, maxRetries)
    ensures Exhausted(Submit(s, maxRetries), n, maxRetries)
    ensures Exhausted(SayHello(s, maxRetries), n, maxRetries)
    ensures Exhausted(CloseTunnel(s, maxRetries), n, maxRetries)
  {
    hide Spent, Delay;
  }

  lemma TryAgainKeepsExhausted(s: State, m: nat, retries: nat, n: nat, maxRetries: nat)
    requires Exhausted(s, n, maxRetries) && (m == n ==> retries == maxRetries)
    ensures Exhausted(TryAgain(s, m, retries, maxRetries), n, maxRetries)
  {
    SubmitKeepsExhausted(s.(needClose := true), n, maxRetries);
    hide Spent, Delay, CloseTunnel;
  }

  lemma StepKeepsExhausted(s: State, step: Step, n: nat, maxRetries: nat)
    requires Counted(s, maxRetries) && Enabled(s, step) && Exhausted(s, n, maxRetries)
    ensures Exhausted(Next(s, step, maxRetries), n, maxRetries)
  {
    SubmitKeepsExhausted(s, n, maxRetries);
    match step
    case Fire(k) =>
      var e, s1 := s.events[k], s.(events := s.events[..k] + s.events[k + 1..]);
      assert e in s.events && (e.Retransmit? && e.number == n ==> s.xmits[n] == e.retries);
      hide Counted, SayHello, TryAgain, Spent;
      SubmitKeepsExhausted(s1, n, maxRetries);
      if e.Retransmit? {
        TryAgainKeepsExhausted(s1, e.number, e.retries, n, maxRetries);
      }
    case _ =>
  }

  lemma StepPatient(s: State, step: Step, maxRetries: nat)
    requires Counted(s, maxRetries) && Paced(s) && Enabled(s, step) && !step.Close? && Patient(s, maxRetries)
    ensures Patient(Next(s, step, maxRetries), maxRetries)
  {
    var r := Next(s, step, maxRetries);
    if s.closing || s.needClose || !s.alive {
      var n :| Exhausted(s, n, maxRetries);
      StepKeepsExhausted(s, step, n, maxRetries);
    } else if r.closing || r.needClose || !r.alive {
      GaveUp(s, step, maxRetries);
      var n := s.events[step.k].number;
      assert Exhausted(s, n, maxRetries);
      StepKeepsExhausted(s, step, n, maxRetries);
    }
  }

  /** A running tunnel stops running only when a message has been tried to the end. */
  lemma GaveUp(s: State, step: Step, maxRetries: nat)
    requires Counted(s, maxRetries) && Paced(s) && Enabled(s, step) && !step.Close?
    requires !s.closing && !s.needClose
    requires var r := Next(s, step, maxRetries); r.closing || r.needClose || !r.alive
    ensures step.Fire? && s.events[step.k].Retransmit? && Exhausted(s, s.events[step.k].number, maxRetries)
  {
    assert step.Fire?;
    var e := s.events[step.k];
    assert e in s.events && OnSchedule(s, e);
    assert e.Retransmit?;
    assert Xmit(Wrap(e.number), s.cLr, e.retries, maxRetries).GivenUp?;
    assert s.xmits[e.number] == e.retries <= maxRetries;
  }

  lemma {:induction false} RunPatient(s: State, run: seq<Step>, maxRetries: nat)
    requires Counted(s, maxRetries) && Paced(s) && Legal(s, run, maxRetries)
    ensures var f := Final(s, run, maxRetries);
            && Counted(f, maxRetries) && Paced(f)
            && (Close !in run && Patient(s, maxRetries) ==> Patient(f, maxRetries))
    decreases |run|
  {
    if run != [] {
      var before, last := run[..|run| - 1], run[|run| - 1];
      RunPatient(s, before, maxRetries);
      hide Counted, Paced, Patient, Enabled, Next;
      var f := Final(s, before, maxRetries);
      StepKeepsCounted(f, last, maxRetries);
      StepPaced(f, last, maxRetries);
      if Close !in run && Patient(s, maxRetries) {
        assert last in run && Close !in before;
        StepPatient(f, last, maxRetries);
      }
    }
  }

  /** Whatever the peer says, and when: a tunnel that nobody closes keeps running until some
      message has been transmitted `maxRetries` times, and for the whole series of pauses,
      2^R - 1 seconds, since it first was. */
  lemma NotGivenUpEarly(s: State, run: seq<Step>, maxRetries: nat)
    requires Counted(s, maxRetries) && Paced(s) && s.alive && !s.needClose && !s.closing
    requires Legal(s, run, maxRetries) && Close !in run
    ensures var f := Final(s, run, maxRetries);
            f.closing || f.needClose || !f.alive ==>
              exists n :: n in f.xmits && f.xmits[n] == maxRetries && n in f.first
                          && f.now >= f.first[n] + Spent(maxRetries)
                          && (maxRetries <= 32 ==> f.now >= f.first[n] + Pow2(maxRetries) - 1)
  {
    RunPatient(s, run, maxRetries);
    var f := Final(s, run, maxRetries);
    if f.closing || f.needClose || !f.alive {
      var n :| Exhausted(f, n, maxRetries);
      if maxRetries <= 32 {
        SpentIsPowers(maxRetries);
      }
      assert n in f.xmits && f.xmits[n] == maxRetries && n in f.first;
    }
  }

  /** And a queued message has been transmitted as often as the time since its first
      transmission has room for: once more after 1, 3, 7, ... seconds. */
  lemma TransmittedOnSchedule(s: State, run: seq<Step>, maxRetries: nat, e: Event)
    requires Counted(s, maxRetries) && Paced(s) && Legal(s, run, maxRetries)
    requires e in Final(s, run, maxRetries).events && e.Retransmit?
    ensures var f, n := Final(s, run, maxRetries), e.number;
            && n in f.xmits && n in f.first && f.xmits[n] > 0
            && f.first[n] + Spent(f.xmits[n] - 1) <= f.now <= f.first[n] + Spent(f.xmits[n])
            && (f.xmits[n] <= 32 ==> f.first[n] + Pow2(f.xmits[n] - 1) - 1 <= f.now < f.first[n] + Pow2(f.xmits[n]))
  {
    RunPatient(s, run, maxRetries);
    var f := Final(s, run, maxRetries);
    assert OnSchedule(f, e) && f.xmits[e.number] == e.retries;
    if e.retries <= 32 {
      SpentIsPowers(e.retries);
      SpentIsPowers(e.retries - 1);
    }
  }
}
