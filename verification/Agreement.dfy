/** Two honest daemons and one tunnel between them: what each calls the other's end of the
    tunnel and of every call. Control messages are processed in the order sent, once each,
    as the reliable channel delivers them. */
module Agreement {
  import opened Words
  import HiddenAvp
  import opened AvpHandlers
  import AvpParser
  import opened AvpMessages

  /** A control message with the call its header names; 0 is the tunnel itself. */
  datatype Letter = Letter(cid: u16, m: Message)

  /** A call by its local identifier. Records stay when a call is gone. */
  datatype CallEnd = CallEnd(initiated: bool, cid: u16, state: int, gone: bool)

  /** One daemon: `got` counts the letters of the other that it has processed. */
  datatype Side = Side(ourtid: u16, tid: int, state: int, calls: map<u16, CallEnd>, sent: seq<Letter>, got: nat)

  datatype Action =
    | Dial(ourcid: u16, m: Message)
    | Say(l: Letter)
    | Take(ourcid: u16, accept: bool, answer: Message)
    | Hangup(ourcid: u16)

  predicate IsSetup(m: Message) {
    m.Sccrq? || m.Sccrp? || m.Scccn? || m.Icrq? || m.Icrp? || m.Iccn?
  }

  predicate FreshId(x: Side, o: u16) {
    o != 0 && o !in x.calls
  }

  /** What a letter asks of the answer. */
  predicate Fitting(x: Side, m: Message, o: u16, answer: Message) {
    && (m.Sccrq? ==> answer.Sccrp? && answer.tid == x.ourtid)
    && (m.Sccrp? ==> answer.Scccn?)
    && (m.Icrq? ==> FreshId(x, o) && answer.Icrp? && answer.cid == o)
    && (m.Icrp? ==> answer.Iccn?)
  }

  /** What a side may do; the answer it gives names its own end. */
  predicate Legal(x: Side, y: Side, a: Action) {
    match a
    case Dial(o, m) => x.state == SCCCN && FreshId(x, o) && m.Icrq? && m.cid == o
    case Say(l) => !IsSetup(l.m) && (l.m.StopCcn? ==> l.m.tid == x.ourtid)
    case Hangup(o) => o in x.calls
    case Take(o, accept, answer) =>
      x.got < |y.sent| && Fitting(x, y.sent[x.got].m, o, answer)
  }

  function Send(x: Side, cid: u16, m: Message): Side {
    x.(sent := x.sent + [Letter(cid, m)])
  }

  /** A message on the tunnel. An identifier is stored before the message is accepted. */
  function OnTunnel(x: Side, m: Message, o: u16, accept: bool, answer: Message): Side {
    match m
    case Sccrq(_, _, _, _, tid, _, _) =>
      if x.state != 0 && x.state != SCCRQ then x
      else if !accept then x.(tid := tid)
      else Send(x.(tid := tid, state := SCCRP), 0, answer)
    case Sccrp(_, _, _, _, tid, _, _, _) =>
      if x.state != SCCRQ then x
      else if !accept then x.(tid := tid)
      else Send(x.(tid := tid, state := SCCCN), 0, answer)
    case Scccn(_, _) => if x.state == SCCRP && accept then x.(state := SCCCN) else x
    case StopCcn(_, tid, _, _, _) => if x.tid == 0 then x.(tid := tid) else x
    case Icrq(_, cid, _, _) =>
      if x.state != SCCCN then x
      else if !accept then x.(calls := x.calls[o := CallEnd(false, cid, 0, false)])
      else Send(x.(calls := x.calls[o := CallEnd(false, cid, ICRP, false)]), cid, answer)
    case _ => x
  }

  function OnCall(x: Side, k: u16, m: Message, accept: bool, answer: Message): Side
    requires k in x.calls
  {
    var c := x.calls[k];
    match m
    case Icrp(_, cid) =>
      if x.state != SCCCN || c.state != ICRQ then x
      else if !accept then x.(calls := x.calls[k := c.(cid := cid)])
      else Send(x.(calls := x.calls[k := c.(cid := cid, state := ICCN)]), cid, answer)
    case Iccn(_, _, _, _) =>
      if c.state == ICRP && accept then x.(calls := x.calls[k := c.(state := ICCN)]) else x
    case _ => x
  }

  /** Process a letter. */
  function Process(x: Side, l: Letter, o: u16, accept: bool, answer: Message): Side {
    if l.cid == 0 then OnTunnel(x, l.m, o, accept, answer)
    else if l.cid in x.calls && !x.calls[l.cid].gone then OnCall(x, l.cid, l.m, accept, answer)
    else x
  }

  function Step(x: Side, y: Side, a: Action): Side
    requires Legal(x, y, a)
  {
    match a
    case Dial(o, m) => Send(x.(calls := x.calls[o := CallEnd(true, 0, ICRQ, false)]), 0, m)
    case Say(l) => x.(sent := x.sent + [l])
    case Hangup(o) => x.(calls := x.calls[o := x.calls[o].(gone := true)])
    case Take(o, accept, answer) => Process(x.(got := x.got + 1), y.sent[x.got], o, accept, answer)
  }

  // ----- the invariant -----

  /** An initiated call that has been answered by the other end's call `o`. */
  predicate Answered(x: Side, k: u16, o: u16) {
    k in x.calls && x.calls[k].initiated && x.calls[k].state == ICCN && x.calls[k].cid == o
  }

  /** A letter tells the truth about its sender. */
  predicate True(x: Side, l: Letter) {
    && (l.m.Sccrq? || l.m.Sccrp? || l.m.StopCcn? ==> l.m.tid == x.ourtid)
    && (l.m.Icrq? ==> l.m.cid in x.calls && x.calls[l.m.cid].initiated)
    && (l.m.Icrp? ==> l.m.cid in x.calls && !x.calls[l.m.cid].initiated && x.calls[l.m.cid].cid == l.cid)
    && (l.m.Iccn? ==> exists k :: Answered(x, k, l.cid))
  }

  predicate AllTrue(x: Side) {
    forall l <- x.sent :: True(x, l)
  }

  /** What a call record says about the other side. */
  predicate Matched(x: Side, y: Side, o: u16)
    requires o in x.calls
  {
    var c := x.calls[o];
    if c.initiated then
      && c.state in {ICRQ, ICCN}
      && (c.state == ICCN ==> c.cid in y.calls && !y.calls[c.cid].initiated && y.calls[c.cid].cid == o)
    else
      && c.state in {0, ICRP, ICCN}
      && c.cid in y.calls && y.calls[c.cid].initiated
      && (c.state == ICCN ==> exists k :: Answered(y, k, o))
  }

  predicate AllMatched(x: Side, y: Side) {
    forall o <- x.calls.Keys :: Matched(x, y, o)
  }

  predicate Told(x: Side, y: Side) {
    && (x.tid > 0 ==> x.tid == y.ourtid)
    && (x.state in {SCCRP, SCCCN} ==> x.tid == y.ourtid)
  }

  predicate Half(x: Side, y: Side) {
    AllTrue(x) && AllMatched(x, y) && Told(x, y)
  }

  /** Nothing that was said of a call becomes false. */
  predicate Grows(x: Side, x1: Side) {
    && x1.ourtid == x.ourtid && x.calls.Keys <= x1.calls.Keys
    && forall o <- x.calls.Keys ::
         && x1.calls[o].initiated == x.calls[o].initiated
         && (!x.calls[o].initiated ==> x1.calls[o].cid == x.calls[o].cid)
         && (x.calls[o].initiated && x.calls[o].state == ICCN ==>
               x1.calls[o].cid == x.calls[o].cid && x1.calls[o].state == ICCN)
  }

  lemma AnsweredGrows(x: Side, x1: Side, k: u16, o: u16)
    requires Grows(x, x1) && Answered(x, k, o)
    ensures Answered(x1, k, o)
  {
  }

  lemma TrueGrows(x: Side, x1: Side, l: Letter)
    requires Grows(x, x1) && True(x, l)
    ensures True(x1, l)
  {
    if l.m.Iccn? {
      var k :| Answered(x, k, l.cid);
      AnsweredGrows(x, x1, k, l.cid);
    }
  }

  lemma MatchedGrows(y: Side, x: Side, x1: Side, o: u16)
    requires o in y.calls && Grows(x, x1) && Matched(y, x, o)
    ensures Matched(y, x1, o)
  {
    if !y.calls[o].initiated && y.calls[o].state == ICCN {
      var k :| Answered(x, k, o);
      AnsweredGrows(x, x1, k, o);
    }
  }

  /** The side that does nothing keeps its half. */
  lemma OtherHalf(y: Side, x: Side, x1: Side)
    requires Half(y, x) && Grows(x, x1)
    ensures Half(y, x1)
  {
    hide Grows, Matched;
    forall o <- y.calls.Keys ensures Matched(y, x1, o) {
      MatchedGrows(y, x, x1, o);
    }
    assert x1.ourtid == x.ourtid by { GrowsTid(x, x1); }
  }

  lemma GrowsTid(x: Side, x1: Side)
    requires Grows(x, x1)
    ensures x1.ourtid == x.ourtid
  {
  }

  // ----- each step keeps both halves -----

  /** One record added or changed, and perhaps a letter sent. */
  predicate Moves(x: Side, x1: Side, o: u16, c: CallEnd) {
    x1.ourtid == x.ourtid && x1.calls == x.calls[o := c]
  }

  predicate Allowed(x: Side, o: u16, c: CallEnd) {
    o in x.calls ==>
      && c.initiated == x.calls[o].initiated && (!c.initiated ==> c.cid == x.calls[o].cid)
      && (c.initiated && x.calls[o].state == ICCN ==> c.cid == x.calls[o].cid && c.state == ICCN)
  }

  lemma MovesGrows(x: Side, x1: Side, o: u16, c: CallEnd)
    requires Moves(x, x1, o, c) && Allowed(x, o, c)
    ensures Grows(x, x1)
  {
  }

  lemma MovesMatched(x: Side, y: Side, x1: Side, o: u16, c: CallEnd)
    requires AllMatched(x, y) && Moves(x, x1, o, c) && Matched(x1, y, o)
    ensures AllMatched(x1, y)
  {
    forall p <- x1.calls.Keys ensures Matched(x1, y, p) {
      assert p == o || Matched(x, y, p);
    }
  }

  /** Letters sent before stay true; the new ones are given. */
  lemma LettersTrue(x: Side, x1: Side, l: Letter)
    requires AllTrue(x) && Grows(x, x1) && (x1.sent == x.sent || (x1.sent == x.sent + [l] && True(x1, l)))
    ensures AllTrue(x1)
  {
    hide Grows, True;
    forall k <- x1.sent ensures True(x1, k) {
      if k in x.sent {
        TrueGrows(x, x1, k);
      }
    }
  }

  lemma SameCallsGrow(x: Side, x1: Side)
    requires x1.ourtid == x.ourtid && x1.calls == x.calls
    ensures Grows(x, x1)
  {
  }

  lemma SameCallsMatched(x: Side, y: Side, x1: Side)
    requires AllMatched(x, y) && x1.calls == x.calls
    ensures AllMatched(x1, y)
  {
    forall o <- x1.calls.Keys ensures Matched(x1, y, o) {
      assert Matched(x, y, o);
    }
  }

  /** A step that leaves the calls alone. */
  lemma QuietStep(x: Side, y: Side, x1: Side, l: Letter)
    requires Half(x, y) && x1.ourtid == x.ourtid && x1.calls == x.calls && Told(x1, y)
    requires x1.sent == x.sent || (x1.sent == x.sent + [l] && True(x1, l))
    ensures Grows(x, x1) && Half(x1, y)
  {
    hide Grows, AllTrue, AllMatched, Told, True;
    SameCallsGrow(x, x1);
    SameCallsMatched(x, y, x1);
    LettersTrue(x, x1, l);
  }

  /** A step that adds or changes one call. */
  lemma CallStep(x: Side, y: Side, x1: Side, o: u16, c: CallEnd, l: Letter)
    requires Half(x, y) && Moves(x, x1, o, c) && Allowed(x, o, c) && Matched(x1, y, o) && Told(x1, y)
    requires x1.sent == x.sent || (x1.sent == x.sent + [l] && True(x1, l))
    ensures Grows(x, x1) && Half(x1, y)
  {
    hide Grows, AllTrue, AllMatched, Told, True, Moves, Allowed, Matched;
    MovesGrows(x, x1, o, c);
    MovesMatched(x, y, x1, o, c);
    LettersTrue(x, x1, l);
  }

  lemma TunnelStep(x: Side, y: Side, l: Letter, o: u16, accept: bool, answer: Message)
    requires Half(x, y) && True(y, l)
    requires l.m.Sccrq? ==> answer.Sccrp? && answer.tid == x.ourtid
    requires l.m.Sccrp? ==> answer.Scccn?
    requires l.m.Icrq? ==> FreshId(x, o) && answer.Icrp? && answer.cid == o
    ensures var x1 := OnTunnel(x, l.m, o, accept, answer); Grows(x, x1) && Half(x1, y)
  {
    var x1 := OnTunnel(x, l.m, o, accept, answer);
    if l.m.Icrq? && x.state == SCCCN {
      var c := CallEnd(false, l.m.cid, if accept then ICRP else 0, false);
      assert Matched(x1, y, o) && Moves(x, x1, o, c);
      assert Told(x1, y);
      assert accept ==> True(x1, Letter(l.m.cid, answer));
      hide Half, OnTunnel, Matched, True;
      CallStep(x, y, x1, o, c, Letter(l.m.cid, answer));
    } else {
      assert Told(x1, y);
      assert x1.sent == x.sent || x1.sent == x.sent + [Letter(0, answer)];
      assert x1.sent != x.sent ==> True(x1, Letter(0, answer));
      hide Half, OnTunnel, True;
      QuietStep(x, y, x1, Letter(0, answer));
    }
  }

  lemma CallTakes(x: Side, y: Side, l: Letter, accept: bool, answer: Message)
    requires Half(x, y) && True(y, l) && l.cid in x.calls && (l.m.Icrp? ==> answer.Iccn?)
    ensures var x1 := OnCall(x, l.cid, l.m, accept, answer); Grows(x, x1) && Half(x1, y)
  {
    var k := l.cid;
    var x1, c := OnCall(x, k, l.m, accept, answer), x.calls[k];
    assert Matched(x, y, k);
    if x1 == x {
      QuietStep(x, y, x1, l);
    } else if l.m.Icrp? {
      assert c.initiated;
      var c1 := if accept then c.(cid := l.m.cid, state := ICCN) else c.(cid := l.m.cid);
      assert Matched(x1, y, k) && Moves(x, x1, k, c1) && Told(x1, y);
      assert accept ==> Answered(x1, k, l.m.cid) && True(x1, Letter(l.m.cid, answer));
      hide Half, OnCall, Matched, True;
      CallStep(x, y, x1, k, c1, Letter(l.m.cid, answer));
    } else {
      assert !c.initiated;
      var c1 := c.(state := ICCN);
      assert Matched(x1, y, k) && Moves(x, x1, k, c1) && Told(x1, y);
      hide Half, OnCall, Matched, True;
      CallStep(x, y, x1, k, c1, l);
    }
  }

  lemma CountedHalf(x: Side, y: Side, x0: Side)
    requires Half(x, y) && x0 == x.(got := x0.got)
    ensures Half(x0, y) && Grows(x, x0)
  {
    assert Told(x0, y);
    QuietStep(x, y, x0, Letter(0, Message.Hello));
  }

  lemma ProcessKeeps(x: Side, y: Side, l: Letter, o: u16, accept: bool, answer: Message)
    requires Half(x, y) && True(y, l) && Fitting(x, l.m, o, answer)
    ensures var x1 := Process(x, l, o, accept, answer); Grows(x, x1) && Half(x1, y)
  {
    hide Half, True, OnTunnel, OnCall, Grows;
    if l.cid == 0 {
      TunnelStep(x, y, l, o, accept, answer);
    } else if l.cid in x.calls && !x.calls[l.cid].gone {
      CallTakes(x, y, l, accept, answer);
    } else {
      CountedHalf(x, y, x);
    }
  }

  lemma TakeStep(x: Side, y: Side, a: Action)
    requires a.Take? && Half(x, y) && AllTrue(y) && Legal(x, y, a)
    ensures Grows(x, Step(x, y, a)) && Half(Step(x, y, a), y)
  {
    hide Half, True, Process, Grows;
    var l, x0 := y.sent[x.got], x.(got := x.got + 1);
    assert l in y.sent && True(y, l);
    assert Fitting(x0, l.m, a.ourcid, a.answer) && Step(x, y, a) == Process(x0, l, a.ourcid, a.accept, a.answer);
    hide *;
    CountedHalf(x, y, x0);
    ProcessKeeps(x0, y, l, a.ourcid, a.accept, a.answer);
    GrowsFrom(x, x0, Process(x0, l, a.ourcid, a.accept, a.answer));
  }

  lemma GrowsFrom(x: Side, x0: Side, x1: Side)
    requires x0 == x.(got := x0.got) && Grows(x0, x1)
    ensures Grows(x, x1)
  {
  }

  lemma StepKeeps(x: Side, y: Side, a: Action)
    requires Half(x, y) && Half(y, x) && Legal(x, y, a)
    ensures Half(Step(x, y, a), y) && Half(y, Step(x, y, a))
  {
    var x1 := Step(x, y, a);
    match a {
      case Dial(o, m) =>
        var c := CallEnd(true, 0, ICRQ, false);
        assert Matched(x1, y, o) && Moves(x, x1, o, c) && Told(x1, y) && True(x1, Letter(0, m));
        CallStep(x, y, x1, o, c, Letter(0, m));
      case Say(l) =>
        assert Told(x1, y) && True(x1, l);
        QuietStep(x, y, x1, l);
      case Hangup(o) =>
        var c := x.calls[o].(gone := true);
        assert Matched(x, y, o);
        assert Matched(x1, y, o) && Moves(x, x1, o, c) && Told(x1, y);
        CallStep(x, y, x1, o, c, Letter(0, Message.Hello));
      case Take(_, _, _) => TakeStep(x, y, a);
    }
    hide Half, Grows, Step;
    OtherHalf(y, x, x1);
  }

  // ----- runs of both sides -----

  /** `true` for a step of the side that asked for the tunnel. */
  ghost predicate LegalRun(a: Side, b: Side, run: seq<(bool, Action)>)
    decreases |run|
  {
    run == [] ||
    if run[0].0 then Legal(a, b, run[0].1) && LegalRun(Step(a, b, run[0].1), b, run[1..])
    else Legal(b, a, run[0].1) && LegalRun(a, Step(b, a, run[0].1), run[1..])
  }

  ghost function Final(a: Side, b: Side, run: seq<(bool, Action)>): (Side, Side)
    requires LegalRun(a, b, run)
    decreases |run|
  {
    if run == [] then (a, b)
    else if run[0].0 then Final(Step(a, b, run[0].1), b, run[1..])
    else Final(a, Step(b, a, run[0].1), run[1..])
  }

  lemma {:induction false} RunKeeps(a: Side, b: Side, run: seq<(bool, Action)>)
    requires LegalRun(a, b, run) && Half(a, b) && Half(b, a)
    ensures var f := Final(a, b, run); Half(f.0, f.1) && Half(f.1, f.0)
    decreases |run|
  {
    if run != [] {
      hide Half, Step, Legal;
      if run[0].0 {
        StepKeeps(a, b, run[0].1);
        RunKeeps(Step(a, b, run[0].1), b, run[1..]);
      } else {
        StepKeeps(b, a, run[0].1);
        RunKeeps(a, Step(b, a, run[0].1), run[1..]);
      }
    }
  }

  /** The asking side has sent its request; the other has heard nothing. */
  predicate Start(a: Side, b: Side) {
    && a.state == SCCRQ && a.tid == 0 && a.calls == map[] && a.got == 0
    && |a.sent| == 1 && a.sent[0].cid == 0 && a.sent[0].m.Sccrq? && a.sent[0].m.tid == a.ourtid
    && b.state == 0 && b.tid == -1 && b.calls == map[] && b.sent == [] && b.got == 0
  }

  /** A connected call of one side is the other end of a call that names it. */
  predicate CallsAgree(x: Side, y: Side) {
    forall o <- x.calls.Keys :: x.calls[o].state == ICCN ==>
      x.calls[o].cid in y.calls && y.calls[x.calls[o].cid].cid == o
  }

  lemma HalvesAgree(x: Side, y: Side)
    requires Half(x, y) && Half(y, x)
    ensures CallsAgree(x, y) && (x.state == SCCCN ==> x.tid == y.ourtid)
  {
    forall o <- x.calls.Keys | x.calls[o].state == ICCN
      ensures x.calls[o].cid in y.calls && y.calls[x.calls[o].cid].cid == o
    {
      assert Matched(x, y, o);
      if !x.calls[o].initiated {
        var k :| Answered(y, k, o);
        assert Matched(y, x, k);
      }
    }
  }

  // ----- a call comes up -----

  /** From `a` and `b` the run leads to `x` and `y`. */
  ghost predicate Leads(a: Side, b: Side, run: seq<(bool, Action)>, x: Side, y: Side) {
    LegalRun(a, b, run) && Final(a, b, run) == (x, y)
  }

  lemma AskerFirst(a: Side, b: Side, act: Action, run: seq<(bool, Action)>, x: Side, y: Side)
    requires Legal(a, b, act) && Leads(Step(a, b, act), b, run, x, y)
    ensures Leads(a, b, [(true, act)] + run, x, y)
  {
    assert ([(true, act)] + run)[1..] == run;
    hide Legal, Step;
  }

  lemma AskedFirst(a: Side, b: Side, act: Action, run: seq<(bool, Action)>, x: Side, y: Side)
    requires Legal(b, a, act) && Leads(a, Step(b, a, act), run, x, y)
    ensures Leads(a, b, [(false, act)] + run, x, y)
  {
    assert ([(false, act)] + run)[1..] == run;
    hide Legal, Step;
  }

  /** The messages of both sides. */
  datatype Exchange = Exchange(sccrp: Message, scccn: Message, icrq: Message, icrp: Message, iccn: Message)

  predicate Proper(e: Exchange, tid: u16) {
    && e.sccrp.Sccrp? && e.sccrp.tid == tid && e.scccn.Scccn? && e.iccn.Iccn?
    && e.icrq.Icrq? && e.icrq.cid != 0 && e.icrp.Icrp? && e.icrp.cid != 0
  }

  function Run(e: Exchange): seq<(bool, Action)>
    requires e.icrq.Icrq? && e.icrp.Icrp?
  {
    [(false, Take(0, true, e.sccrp))] + ([(true, Take(0, true, e.scccn))] + ([(false, Take(0, true, e.scccn))]
    + CallRun(e)))
  }

  function CallRun(e: Exchange): seq<(bool, Action)>
    requires e.icrq.Icrq? && e.icrp.Icrp?
  {
    [(true, Dial(e.icrq.cid, e.icrq))] + ([(false, Take(e.icrp.cid, true, e.icrp))]
    + ([(true, Take(0, true, e.iccn))] + ([(false, Take(0, true, e.iccn))] + [])))
  }

  /** Both sides established, each with the other's identifier. */
  predicate Up(a: Side, b: Side) {
    && a.state == SCCCN && b.state == SCCCN && a.tid == b.ourtid && b.tid == a.ourtid
    && a.calls == map[] && b.calls == map[] && a.got == |b.sent| && b.got == |a.sent|
  }

  lemma CallConnects(e: Exchange, a: Side, b: Side)
    returns (x: Side, y: Side)
    requires Up(a, b) && Proper(e, b.ourtid)
    ensures Leads(a, b, CallRun(e), x, y) && x.state == y.state == SCCCN && x.tid == a.tid && y.tid == b.tid
    ensures x.calls == map[e.icrq.cid := CallEnd(true, e.icrp.cid, ICCN, false)]
    ensures y.calls == map[e.icrp.cid := CallEnd(false, e.icrq.cid, ICCN, false)]
  {
    var o, k := e.icrq.cid, e.icrp.cid;
    var d1, d2, d3, d4 := Dial(o, e.icrq), Take(k, true, e.icrp), Take(0, true, e.iccn), Take(0, true, e.iccn);
    var a1 := Send(a.(calls := map[o := CallEnd(true, 0, ICRQ, false)]), 0, e.icrq);
    assert Legal(a, b, d1) && Step(a, b, d1) == a1;
    var b1 := Send(b.(got := b.got + 1, calls := map[k := CallEnd(false, o, ICRP, false)]), o, e.icrp);
    assert Legal(b, a1, d2) && Step(b, a1, d2) == b1;
    x := Send(a1.(got := a1.got + 1, calls := map[o := CallEnd(true, k, ICCN, false)]), k, e.iccn);
    assert Legal(a1, b1, d3) && Step(a1, b1, d3) == x;
    y := b1.(got := b1.got + 1, calls := map[k := CallEnd(false, o, ICCN, false)]);
    assert Legal(b1, x, d4) && Step(b1, x, d4) == y;
    hide Legal, Step;
    assert Leads(x, y, [], x, y);
    hide Leads;
    AskedFirst(x, b1, d4, [], x, y);
    AskerFirst(a1, b1, d3, [(false, d4)] + [], x, y);
    AskedFirst(a1, b, d2, [(true, d3)] + ([(false, d4)] + []), x, y);
    AskerFirst(a, b, d1, [(false, d2)] + ([(true, d3)] + ([(false, d4)] + [])), x, y);
  }

  /** Whatever the messages hold, if both sides accept them there is a run in which the tunnel
      comes up on both, and a call that each end knows by the identifier of the other. */
  lemma CallComesUp(e: Exchange, a: Side, b: Side)
    returns (x: Side, y: Side)
    requires Start(a, b) && Proper(e, b.ourtid)
    ensures Leads(a, b, Run(e), x, y) && x.state == y.state == SCCCN && x.tid == b.ourtid && y.tid == a.ourtid
    ensures x.calls == map[e.icrq.cid := CallEnd(true, e.icrp.cid, ICCN, false)]
    ensures y.calls == map[e.icrp.cid := CallEnd(false, e.icrq.cid, ICCN, false)]
  {
    var d1, d2, d3 := Take(0, true, e.sccrp), Take(0, true, e.scccn), Take(0, true, e.scccn);
    var b1 := Send(b.(got := 1, tid := a.ourtid, state := SCCRP), 0, e.sccrp);
    assert Legal(b, a, d1) && Step(b, a, d1) == b1;
    var a1 := Send(a.(got := 1, tid := b.ourtid, state := SCCCN), 0, e.scccn);
    assert Legal(a, b1, d2) && Step(a, b1, d2) == a1;
    var b2 := b1.(got := 2, state := SCCCN);
    assert Legal(b1, a1, d3) && Step(b1, a1, d3) == b2;
    x, y := CallConnects(e, a1, b2);
    hide Legal, Step, Leads, CallRun;
    AskedFirst(a1, b1, d3, CallRun(e), x, y);
    AskerFirst(a, b1, d2, [(false, d3)] + CallRun(e), x, y);
    AskedFirst(a, b, d1, [(true, d2)] + ([(false, d3)] + CallRun(e)), x, y);
  }

  /** In every run: an established side knows the other's tunnel identifier, and each end of
      a connected call knows the identifier of the other. */
  lemma IdsAgree(a: Side, b: Side, run: seq<(bool, Action)>)
    requires Start(a, b) && LegalRun(a, b, run)
    ensures var f := Final(a, b, run);
            && (f.0.state == SCCCN ==> f.0.tid == f.1.ourtid) && (f.1.state == SCCCN ==> f.1.tid == f.0.ourtid)
            && CallsAgree(f.0, f.1) && CallsAgree(f.1, f.0)
  {
    assert Half(a, b) && Half(b, a);
    RunKeeps(a, b, run);
    hide *;
    var f := Final(a, b, run);
    HalvesAgree(f.0, f.1);
    HalvesAgree(f.1, f.0);
  }

  // ----- what a side stores is what its parser read -----

  /** The parser works on the side's record of call `k`, or of the tunnel if `k` is 0. */
  predicate Reflects(x: Side, k: u16, s: Session) {
    && s.t.state == x.state && s.t.tid == x.tid && s.c.isSelf == (k == 0)
    && if k == 0 then s.c.state == 0
       else
         && k in x.calls && !x.calls[k].gone && s.c.state == x.calls[k].state && s.c.cid == x.calls[k].cid
         && s.Consistent()
  }

  /** The tunnel identifier after a letter, and the identifier of the peer's end of call `k`. */
  function TidFrom(x: Side, m: Message, s: Session): int {
    if m.Sccrq? || m.Sccrp? || x.tid != 0 then s.t.tid else if m.StopCcn? then s.t.qtid else x.tid
  }

  function CidFrom(x: Side, l: Letter, o: u16, s: Session, k: u16): int
    requires k in x.calls || (l.m.Icrq? && k == o)
  {
    if l.m.Icrq? && k == o then s.Head().cid
    else if l.cid != 0 && k == l.cid then s.c.cid
    else x.calls[k].cid
  }

  /** The identifiers of `x1` are those of `x` and, of what `l` told, those in `s`. */
  predicate Stored(x: Side, x1: Side, l: Letter, o: u16, s: Session) {
    && x1.tid == TidFrom(x, l.m, s)
    && x1.calls.Keys == (if l.m.Icrq? then x.calls.Keys + {o} else x.calls.Keys)
    && forall k <- x1.calls.Keys :: x1.calls[k].cid == CidFrom(x, l, o, s, k)
  }

  lemma TunnelStores(x: Side, l: Letter, s: Session, o: u16, accept: bool, answer: Message)
    requires Reflects(x, 0, s) && l.cid == 0
    requires StateAllows(s.(c := s.c.(msgtype := TypeOf(l.m))), TypeOf(l.m))
    ensures Stored(x, OnTunnel(x, l.m, o, accept, answer), l, o, Learned(s, l.m))
  {
    hide StoredName, FixOrder, CString;
  }

  lemma CallStores(x: Side, l: Letter, s: Session, o: u16, accept: bool, answer: Message)
    requires l.cid != 0 && Reflects(x, l.cid, s)
    requires StateAllows(s.(c := s.c.(msgtype := TypeOf(l.m))), TypeOf(l.m))
    ensures Stored(x, OnCall(x, l.cid, l.m, accept, answer), l, o, Learned(s, l.m))
  {
    hide StoredName, FixOrder, CString;
  }

  lemma ProcessStores(x: Side, l: Letter, s: Session, o: u16, accept: bool, answer: Message)
    requires Reflects(x, l.cid, s) && StateAllows(s.(c := s.c.(msgtype := TypeOf(l.m))), TypeOf(l.m))
    ensures Stored(x, Process(x, l, o, accept, answer), l, o, Learned(s, l.m))
  {
    hide OnTunnel, OnCall, Learned, StateAllows, Stored;
    if l.cid == 0 {
      TunnelStores(x, l, s, o, accept, answer);
    } else {
      CallStores(x, l, s, o, accept, answer);
    }
  }

  lemma ProcessIgnores(x: Side, l: Letter, s: Session, o: u16, accept: bool, answer: Message)
    requires Reflects(x, l.cid, s) && !StateAllows(s.(c := s.c.(msgtype := TypeOf(l.m))), TypeOf(l.m))
    ensures Process(x, l, o, accept, answer) == x
  {
  }

  /** Every letter, sent as a packet and parsed by the side it is for: the side heeds it
      exactly when its parser accepts it, and the identifiers it then holds are those the
      parser has read out of the packet. */
  lemma StoredIsParsed(x: Side, l: Letter, s: Session, o: u16, accept: bool, answer: Message, pre: seq<byte>,
                       post: seq<byte>, h: HiddenAvp.Hash, secret: seq<byte>)
    requires Reflects(x, l.cid, s) && Sized(l.m)
    ensures AllSendable(Attrs(l.m))
    ensures var body, x1 := WireAll(Attrs(l.m)), Process(x, l, o, accept, answer);
            var w := AvpParser.Walk(pre + body + post, |pre|, |body|, true, s, h, secret);
            if w.ok then Stored(x, x1, l, o, w.s) else x1 == x
  {
    hide Process, Reflects, AvpParser.Walk, Attrs, Learned, StateAllows, Stored;
    if StateAllows(s.(c := s.c.(msgtype := TypeOf(l.m))), TypeOf(l.m)) {
      MessageRoundTrip(l.m, s, pre, post, h, secret);
      ProcessStores(x, l, s, o, accept, answer);
    } else {
      UnallowedRefused(l.m, s, pre, post, h, secret);
      ProcessIgnores(x, l, s, o, accept, answer);
    }
  }
}
