/** What a control packet can do, whatever it holds, to the fields that decide about its
    tunnel; and what a Message Type that fails its check changes about that. */
module WalkEffects {
  import opened Words
  import opened HiddenAvp
  import opened AvpHandlers
  import opened AvpParser

  // ----- one attribute: nothing run, or one handler -----

  /** No handler was run: the session is as it was, or an error ends the walk. */
  predicate Idle(v: Verdict, s: Session) {
    v.calls == [] && v.access in {Fine, Past} && (v.s == s || (!v.goOn && v.s == s.SetError(v.s.c.error)))
  }

  /** The handler that was run, the header word it was under, and its value. */
  predicate Called(r: Stepped) {
    && |r.v.calls| == 1 && HasHandler(r.v.calls[0].0)
    && var span := r.v.calls[0].1; AVP_HDR <= span.length && span.start + span.length <= |r.buf|
  }

  /** It accessed what is not there. */
  predicate Missed(r: Stepped, s: Session) {
    && Called(r) && r.v.calls[0].0 != 0
    && r.v == Verdict(s, false, r.v.calls, Accessed(r, s)) && Accessed(r, s) != Fine
  }

  function Accessed(r: Stepped, s: Session): Access
    requires Called(r)
  {
    AccessOf(s, r.v.calls[0].0, r.v.calls[0].1.length - AVP_HDR)
  }

  function Word16(r: Stepped): u16
    requires Called(r)
  {
    GetLe(r.buf, r.v.calls[0].1.start)
  }

  function Result(r: Stepped, s: Session): Handled
    requires Called(r)
  {
    var span := r.v.calls[0].1;
    Run(s, r.v.calls[0].0, span.length - AVP_HDR, r.buf[span.start + AVP_HDR..])
  }

  /** What a failing handler leads to is decided by the M bit alone. */
  predicate Ran(r: Stepped, s: Session) {
    && Called(r) && r.v.access.Fine?
    && Accessed(r, s) == Fine
    && var run := Result(r, s);
       && (r.v.goOn <==> run.ok || !Mandatory(Word16(r)))
       && r.v.s == if r.v.goOn then run.s else run.s.(c := run.s.c.(needClose := true))
  }

  lemma DispatchRan(b: seq<byte>, at: nat, attr: nat, s: Session)
    requires at + AVP_HDR <= |b|
    requires at + AVP_HDR <= at + Length(GetLe(b, at)) <= |b|
    ensures var r := Stepped(b, Dispatch(b, at, GetLe(b, at), attr, s)); Idle(r.v, s) || Missed(r, s) || Ran(r, s)
  {
    hide Run, GetLe, Length, Mandatory;
    assert AccessOf(s, attr, Length(GetLe(b, at)) - AVP_HDR) != Fine ==> attr != 0;
    hide AccessOf;
  }

  lemma StepRan(buf: seq<byte>, at: nat, len: nat, first: bool, s: Session, h: Hash, secret: seq<byte>)
    requires at + len <= |buf| && len > 0
    ensures var r := Step(buf, at, len, first, s, h, secret); Idle(r.v, s) || Missed(r, s) || Ran(r, s)
  {
    if at + AVP_HDR <= |buf| {
      var b := SwapHeader(buf, at);
      var word, attr := GetLe(b, at), GetLe(b, at + 4);
      hide SwapHeader, GetLe, Dispatch, Ran, Missed, Restored, RevealAt, Length, Mandatory;
      match Rule(word, attr, len, first)
      case Reject(e) =>
      case Skip =>
      case Plain =>
        RuledLength(word, attr, len, first);
        DispatchRan(b, at, attr, s);
      case Hidden =>
        RuledLength(word, attr, len, first);
        if s.t.vector.Vector? && at + 8 <= |b| && RevealAt(b, at, h, secret, s.t.vector).Revealed? {
          RevealedInside(b, at, h, secret, s.t.vector);
          DispatchRan(Restored(b, at, h, secret, s.t.vector), at + 2, attr, s);
        }
    }
  }

  // ----- what a packet can do to the fields that matter -----

  /** No packet moves a state, makes a call the tunnel's own or stops it from closing. */
  predicate Steady(a: Session, b: Session) {
    && b.t.state == a.t.state && b.c.state == a.c.state && b.c.isSelf == a.c.isSelf
    && (a.c.needClose ==> b.c.needClose)
  }

  lemma SteadyTransitive(a: Session, b: Session, c: Session)
    ensures Steady(a, a)
    ensures Steady(a, b) && Steady(b, c) ==> Steady(a, c)
  {
  }

  lemma RunSteady(s: Session, attr: nat, n: nat, data: seq<byte>)
    requires HasHandler(attr) && n <= |data|
    ensures Steady(s, Run(s, attr, n, data).s)
  {
    hide Run, MessageType;
    if attr == 0 {
      RunOfType(s, n, data);
      TypeFrame(s, n, data);
    } else {
      RunFrame(s, attr, n, data);
    }
  }

  lemma StepSteady(buf: seq<byte>, at: nat, len: nat, first: bool, s: Session, h: Hash, secret: seq<byte>)
    requires at + len <= |buf| && len > 0
    ensures Steady(s, Step(buf, at, len, first, s, h, secret).v.s)
  {
    hide Step, Run, AccessOf;
    StepRan(buf, at, len, first, s, h, secret);
    var r := Step(buf, at, len, first, s, h, secret);
    if Ran(r, s) {
      var span := r.v.calls[0].1;
      RunSteady(s, r.v.calls[0].0, span.length - AVP_HDR, r.buf[span.start + AVP_HDR..]);
    }
  }

  lemma {:induction false} WalkSteady(buf: seq<byte>, at: nat, len: int, first: bool, s: Session, h: Hash,
                                      secret: seq<byte>)
    requires len > 0 ==> at + len <= |buf|
    ensures Steady(s, Walk(buf, at, len, first, s, h, secret).s)
    decreases len
  {
    hide Walk, Step, Claimed, Steady;
    WalkUnfolds(buf, at, len, first, s, h, secret);
    SteadyTransitive(s, s, s);
    if len > 0 {
      var r := Step(buf, at, len, first, s, h, secret);
      StepSteady(buf, at, len, first, s, h, secret);
      if r.v.goOn && Claimed(buf, at) != 0 {
        var n := Claimed(buf, at);
        WalkSteady(r.buf, at + n, len - n, false, r.v.s, h, secret);
        SteadyTransitive(s, r.v.s, Walk(r.buf, at + n, len - n, false, r.v.s, h, secret).s);
      }
    }
  }

  /** The message type seen so far, if any, is one the state allows. */
  predicate TypeOk(s: Session) {
    s.c.msgtype == -1 || (KnownType(s.c.msgtype) && StateAllows(s, s.c.msgtype))
  }

  /** A Message Type was handled, and it did not pass its check. */
  predicate FailedType(r: Stepped, s: Session) {
    Called(r) && r.v.calls[0].0 == 0 && !Result(r, s).ok
  }

  /** Only under a clear M bit does a Message Type that fails its check not end the walk. */
  predicate Heeded(r: Stepped, s: Session) {
    FailedType(r, s) ==> Mandatory(Word16(r))
  }

  /** A reply is taken only while one is awaited, a host name only while a tunnel is asked
      for or answered. */
  predicate Kept(a: Session, b: Session) {
    && Steady(a, b)
    && (b.t.reply == a.t.reply || (a.c.isSelf && a.t.state in {SCCRQ, SCCRP}))
    && (b.t.hostname == a.t.hostname || (a.c.isSelf && a.t.state in {0, SCCRQ}))
  }

  lemma KeptTransitive(a: Session, b: Session, c: Session)
    ensures Kept(a, a)
    ensures Kept(a, b) && Kept(b, c) ==> Kept(a, c)
  {
  }

  lemma TypeKeeps(s: Session, n: nat, data: seq<byte>)
    ensures var r := MessageType(s, n, data);
            && Kept(s, r.s) && (r.ok ==> TypeOk(r.s))
            && (!r.ok && !r.s.c.needClose ==> !TypeOk(r.s))
  {
    hide Word;
  }

  lemma RunKeeps(s: Session, attr: nat, n: nat, data: seq<byte>)
    requires HasHandler(attr) && attr != 0 && n <= |data|
    ensures var r := Run(s, attr, n, data).s; (TypeOk(s) ==> Kept(s, r)) && (TypeOk(r) <==> TypeOk(s))
  {
    hide Run;
    RunFrame(s, attr, n, data);
  }

  lemma StepKeeps(buf: seq<byte>, at: nat, len: nat, first: bool, s: Session, h: Hash, secret: seq<byte>)
    requires at + len <= |buf| && len > 0 && TypeOk(s)
    requires Heeded(Step(buf, at, len, first, s, h, secret), s)
    ensures var v := Step(buf, at, len, first, s, h, secret).v; Kept(s, v.s) && (v.goOn ==> TypeOk(v.s))
  {
    hide Step, Run, Mandatory, Word16, MessageType, AccessOf;
    StepRan(buf, at, len, first, s, h, secret);
    var r := Step(buf, at, len, first, s, h, secret);
    if Ran(r, s) {
      var attr, span := r.v.calls[0].0, r.v.calls[0].1;
      var data := r.buf[span.start + AVP_HDR..];
      if attr == 0 {
        RunOfType(s, span.length - AVP_HDR, data);
        TypeKeeps(s, span.length - AVP_HDR, data);
        hide TypeOk;
      } else {
        RunKeeps(s, attr, span.length - AVP_HDR, data);
        hide TypeOk;
      }
    }
  }

  /** Every Message Type the walk comes to and that fails its check has its M bit set. */
  ghost predicate AllHeeded(buf: seq<byte>, at: nat, len: int, first: bool, s: Session, h: Hash, secret: seq<byte>)
    requires len > 0 ==> at + len <= |buf|
    decreases len
  {
    len > 0 ==>
      var r := Step(buf, at, len, first, s, h, secret);
      GoOnInside(buf, at, len, first, s, h, secret);
      && Heeded(r, s)
      && (r.v.goOn && Claimed(buf, at) != 0 ==>
            AllHeeded(r.buf, at + Claimed(buf, at), len - Claimed(buf, at), false, r.v.s, h, secret))
  }

  lemma {:induction false} WalkKeeps(buf: seq<byte>, at: nat, len: int, first: bool, s: Session, h: Hash,
                                     secret: seq<byte>)
    requires len > 0 ==> at + len <= |buf|
    requires TypeOk(s) && AllHeeded(buf, at, len, first, s, h, secret)
    ensures var w := Walk(buf, at, len, first, s, h, secret); Kept(s, w.s) && (w.ok ==> TypeOk(w.s))
    decreases len
  {
    hide Walk, Step, Claimed, TypeOk, Heeded, Kept;
    WalkUnfolds(buf, at, len, first, s, h, secret);
    KeptTransitive(s, s, s);
    if len > 0 {
      var r := Step(buf, at, len, first, s, h, secret);
      StepKeeps(buf, at, len, first, s, h, secret);
      if r.v.goOn && Claimed(buf, at) != 0 {
        var n := Claimed(buf, at);
        WalkKeeps(r.buf, at + n, len - n, false, r.v.s, h, secret);
        KeptTransitive(s, r.v.s, Walk(r.buf, at + n, len - n, false, r.v.s, h, secret).s);
      }
    }
  }

  predicate Passed(r: Stepped, s: Session, sofar: bool) {
    if Called(r) && r.v.calls[0].0 == 0 then !FailedType(r, s) else sofar
  }

  /** Whether the last Message Type the walk handled passed its check, `sofar` if there is none. */
  ghost predicate LastPassed(buf: seq<byte>, at: nat, len: int, first: bool, s: Session, h: Hash, secret: seq<byte>,
                             sofar: bool)
    requires len > 0 ==> at + len <= |buf|
    decreases len
  {
    if len <= 0 then sofar
    else
      var r := Step(buf, at, len, first, s, h, secret);
      GoOnInside(buf, at, len, first, s, h, secret);
      var now := Passed(r, s, sofar);
      if r.v.goOn && Claimed(buf, at) != 0 then
        LastPassed(r.buf, at + Claimed(buf, at), len - Claimed(buf, at), false, r.v.s, h, secret, now)
      else now
  }

  lemma StepPassed(buf: seq<byte>, at: nat, len: nat, first: bool, s: Session, h: Hash, secret: seq<byte>, sofar: bool)
    requires at + len <= |buf| && len > 0
    requires (sofar ==> TypeOk(s)) && (!sofar && !s.c.needClose ==> !TypeOk(s))
    ensures var r := Step(buf, at, len, first, s, h, secret);
            var now := Passed(r, s, sofar);
            r.v.goOn ==> (now ==> TypeOk(r.v.s)) && (!now && !r.v.s.c.needClose ==> !TypeOk(r.v.s))
  {
    hide Step, Run, Mandatory, Word16, MessageType, AccessOf;
    StepRan(buf, at, len, first, s, h, secret);
    var r := Step(buf, at, len, first, s, h, secret);
    if Ran(r, s) {
      var attr, span := r.v.calls[0].0, r.v.calls[0].1;
      var data := r.buf[span.start + AVP_HDR..];
      if attr == 0 {
        RunOfType(s, span.length - AVP_HDR, data);
        TypeKeeps(s, span.length - AVP_HDR, data);
        hide TypeOk;
      } else {
        RunKeeps(s, attr, span.length - AVP_HDR, data);
        RunSteady(s, attr, span.length - AVP_HDR, data);
        hide TypeOk;
      }
    }
  }

  lemma {:induction false} WalkPassed(buf: seq<byte>, at: nat, len: int, first: bool, s: Session, h: Hash,
                                      secret: seq<byte>, sofar: bool)
    requires len > 0 ==> at + len <= |buf|
    requires (sofar ==> TypeOk(s)) && (!sofar && !s.c.needClose ==> !TypeOk(s))
    ensures var w, last := Walk(buf, at, len, first, s, h, secret),
            LastPassed(buf, at, len, first, s, h, secret, sofar);
            w.ok ==> (last ==> TypeOk(w.s)) && (!last && !w.s.c.needClose ==> !TypeOk(w.s))
    decreases len
  {
    hide Walk, Step, Claimed, TypeOk, Passed;
    WalkUnfolds(buf, at, len, first, s, h, secret);
    if len > 0 {
      var r := Step(buf, at, len, first, s, h, secret);
      StepPassed(buf, at, len, first, s, h, secret, sofar);
      if r.v.goOn && Claimed(buf, at) != 0 {
        var now := Passed(r, s, sofar);
        WalkPassed(r.buf, at + Claimed(buf, at), len - Claimed(buf, at), false, r.v.s, h, secret, now);
      }
    }
  }

  // ----- a call to write to -----

  /** A tunnel without calls is not being asked for one. */
  predicate Ready(s: Session) {
    s.calls == [] ==> s.c.isSelf && s.c.state != OCRQ && s.c.msgtype != ICRQ
  }

  /** Then no message the state allows needs a call that is not there. */
  lemma AllowedNeedsNone(s: Session, attr: nat, n: nat)
    requires TypeOk(s) && Ready(s)
    ensures AccessOf(s, attr, n) != Null
  {
  }

  lemma TypeKeepsReady(s: Session, n: nat, data: seq<byte>)
    requires Ready(s) && MessageType(s, n, data).ok
    ensures Ready(MessageType(s, n, data).s)
  {
    hide Word;
  }

  lemma RanKeepsReady(r: Stepped, s: Session)
    requires Ready(s) && Ran(r, s) && Heeded(r, s) && r.v.goOn
    ensures Ready(r.v.s)
  {
    hide Run, Mandatory, Word16, MessageType, AccessOf;
    var attr, span := r.v.calls[0].0, r.v.calls[0].1;
    var data := r.buf[span.start + AVP_HDR..];
    if attr == 0 {
      RunOfType(s, span.length - AVP_HDR, data);
      TypeKeepsReady(s, span.length - AVP_HDR, data);
    } else {
      RunFrame(s, attr, span.length - AVP_HDR, data);
    }
  }

  lemma StepKeepsReady(buf: seq<byte>, at: nat, len: nat, first: bool, s: Session, h: Hash, secret: seq<byte>)
    requires at + len <= |buf| && len > 0 && TypeOk(s) && Ready(s)
    requires Heeded(Step(buf, at, len, first, s, h, secret), s)
    ensures var v := Step(buf, at, len, first, s, h, secret).v; v.access != Null && (v.goOn ==> Ready(v.s))
  {
    hide Step, AccessOf, TypeOk, Ready, Heeded, Result;
    StepRan(buf, at, len, first, s, h, secret);
    var r := Step(buf, at, len, first, s, h, secret);
    if Missed(r, s) {
      AllowedNeedsNone(s, r.v.calls[0].0, r.v.calls[0].1.length - AVP_HDR);
    } else if Ran(r, s) && r.v.goOn {
      RanKeepsReady(r, s);
    }
  }

  /** As long as no failing Message Type hides under a clear M bit, no access is to a call
      that is not there, and none will be when the message is acted on. */
  lemma {:induction false} HeededFindsCall(buf: seq<byte>, at: nat, len: int, first: bool, s: Session, h: Hash,
                                           secret: seq<byte>)
    requires len > 0 ==> at + len <= |buf|
    requires TypeOk(s) && Ready(s) && AllHeeded(buf, at, len, first, s, h, secret)
    ensures var w := Walk(buf, at, len, first, s, h, secret); w.access != Null && (w.ok ==> Ready(w.s))
    decreases len
  {
    hide Walk, Step, Claimed, TypeOk, Heeded, Ready;
    WalkUnfolds(buf, at, len, first, s, h, secret);
    if len > 0 {
      var r := Step(buf, at, len, first, s, h, secret);
      StepKeeps(buf, at, len, first, s, h, secret);
      StepKeepsReady(buf, at, len, first, s, h, secret);
      if r.v.goOn && Claimed(buf, at) != 0 {
        var n := Claimed(buf, at);
        HeededFindsCall(r.buf, at + n, len - n, false, r.v.s, h, secret);
      }
    }
  }

  // ----- a name to log -----

  /** The handler that is run is for the message, or the message has a name. */
  predicate NamedStep(r: Stepped, s: Session) {
    Called(r) && Inapplicable(r.v.calls[0].0, s.c.msgtype, r.v.calls[0].1.length - AVP_HDR) ==> Named(s.c.msgtype)
  }

  ghost predicate AllNamed(buf: seq<byte>, at: nat, len: int, first: bool, s: Session, h: Hash, secret: seq<byte>)
    requires len > 0 ==> at + len <= |buf|
    decreases len
  {
    len > 0 ==>
      var r := Step(buf, at, len, first, s, h, secret);
      GoOnInside(buf, at, len, first, s, h, secret);
      && NamedStep(r, s)
      && (r.v.goOn && Claimed(buf, at) != 0 ==>
            AllNamed(r.buf, at + Claimed(buf, at), len - Claimed(buf, at), false, r.v.s, h, secret))
  }

  lemma NamedAccess(s: Session, attr: nat, n: nat)
    ensures AccessOf(s, attr, n) == Unnamed <==> Inapplicable(attr, s.c.msgtype, n) && !Named(s.c.msgtype)
  {
  }

  lemma StepNamed(buf: seq<byte>, at: nat, len: nat, first: bool, s: Session, h: Hash, secret: seq<byte>)
    requires at + len <= |buf| && len > 0
    ensures var r := Step(buf, at, len, first, s, h, secret); r.v.access != Unnamed <==> NamedStep(r, s)
  {
    hide Step, AccessOf, Inapplicable, Named, Result, Word16, Mandatory;
    StepRan(buf, at, len, first, s, h, secret);
    var r := Step(buf, at, len, first, s, h, secret);
    if Called(r) {
      NamedAccess(s, r.v.calls[0].0, r.v.calls[0].1.length - AVP_HDR);
    }
  }

  /** For every packet: the table of names is not left exactly if every handler the walk comes
      to is for the message, or the message has a name. */
  lemma {:induction false} WalkNamed(buf: seq<byte>, at: nat, len: int, first: bool, s: Session, h: Hash,
                                     secret: seq<byte>)
    requires len > 0 ==> at + len <= |buf|
    ensures Walk(buf, at, len, first, s, h, secret).access != Unnamed <==> AllNamed(buf, at, len, first, s, h, secret)
    decreases len
  {
    hide Walk, Step, Claimed, NamedStep;
    WalkUnfolds(buf, at, len, first, s, h, secret);
    if len > 0 {
      var r := Step(buf, at, len, first, s, h, secret);
      StepNamed(buf, at, len, first, s, h, secret);
      GoOnInside(buf, at, len, first, s, h, secret);
      if r.v.goOn && Claimed(buf, at) != 0 {
        var n := Claimed(buf, at);
        WalkNamed(r.buf, at + n, len - n, false, r.v.s, h, secret);
      }
    }
  }

  /** The packet begins with a Message Type whose handler is run, or ends there. */
  ghost predicate Led(buf: seq<byte>, at: nat, len: int, s: Session, h: Hash, secret: seq<byte>)
    requires len > 0 ==> at + len <= |buf|
  {
    len > 0 ==> var v := Step(buf, at, len, true, s, h, secret).v; v.goOn ==> v.calls != []
  }

  lemma FirstIsType(buf: seq<byte>, at: nat, len: nat, s: Session, h: Hash, secret: seq<byte>)
    requires at + len <= |buf| && len > 0
    ensures var v := Step(buf, at, len, true, s, h, secret).v; v.calls != [] ==> v.calls[0].0 == 0
  {
    hide Run, Restored, RevealAt, SwapHeader, AccessOf;
  }

  lemma TypeIsKnown(s: Session, n: nat, data: seq<byte>)
    requires MessageType(s, n, data).ok
    ensures KnownType(MessageType(s, n, data).s.c.msgtype)
  {
    hide Word;
  }

  lemma RanStaysKnown(r: Stepped, s: Session)
    requires Ran(r, s) && Heeded(r, s) && r.v.goOn && (KnownType(s.c.msgtype) || r.v.calls[0].0 == 0)
    ensures KnownType(r.v.s.c.msgtype)
  {
    hide Run, Mandatory, Word16, MessageType, AccessOf, KnownType;
    var attr, span := r.v.calls[0].0, r.v.calls[0].1;
    var data := r.buf[span.start + AVP_HDR..];
    if attr == 0 {
      RunOfType(s, span.length - AVP_HDR, data);
      TypeIsKnown(s, span.length - AVP_HDR, data);
    } else {
      RunFrame(s, attr, span.length - AVP_HDR, data);
    }
  }

  /** A message once known stays so. */
  lemma StepStaysKnown(buf: seq<byte>, at: nat, len: nat, first: bool, s: Session, h: Hash, secret: seq<byte>)
    requires at + len <= |buf| && len > 0
    requires var r := Step(buf, at, len, first, s, h, secret);
             Heeded(r, s) && (KnownType(s.c.msgtype) || (first && (r.v.goOn ==> r.v.calls != [])))
    ensures var v := Step(buf, at, len, first, s, h, secret).v; v.goOn ==> KnownType(v.s.c.msgtype)
  {
    hide Step, AccessOf, KnownType, Heeded, Result;
    if first {
      FirstIsType(buf, at, len, s, h, secret);
    }
    StepRan(buf, at, len, first, s, h, secret);
    var r := Step(buf, at, len, first, s, h, secret);
    if Ran(r, s) && r.v.goOn {
      RanStaysKnown(r, s);
    }
  }

  lemma StepIsNamed(buf: seq<byte>, at: nat, len: nat, first: bool, s: Session, h: Hash, secret: seq<byte>)
    requires at + len <= |buf| && len > 0 && (KnownType(s.c.msgtype) || first)
    ensures Step(buf, at, len, first, s, h, secret).v.access != Unnamed
  {
    if first {
      FirstIsLocal(buf, at, len, s, h, secret);
    } else {
      hide Step, Inapplicable;
      StepNamed(buf, at, len, first, s, h, secret);
    }
  }

  /** A packet that begins with a Message Type, and in which none fails its check under a clear
      M bit, leaves no table. */
  lemma {:induction false} HeededIsNamed(buf: seq<byte>, at: nat, len: int, first: bool, s: Session, h: Hash,
                                         secret: seq<byte>)
    requires len > 0 ==> at + len <= |buf|
    requires AllHeeded(buf, at, len, first, s, h, secret)
    requires KnownType(s.c.msgtype) || (first && Led(buf, at, len, s, h, secret))
    ensures Walk(buf, at, len, first, s, h, secret).access != Unnamed
    decreases len
  {
    hide Walk, Step, Claimed, KnownType, Heeded;
    WalkUnfolds(buf, at, len, first, s, h, secret);
    if len > 0 {
      var r := Step(buf, at, len, first, s, h, secret);
      StepStaysKnown(buf, at, len, first, s, h, secret);
      StepIsNamed(buf, at, len, first, s, h, secret);
      if r.v.goOn && Claimed(buf, at) != 0 {
        var n := Claimed(buf, at);
        HeededIsNamed(r.buf, at + n, len - n, false, r.v.s, h, secret);
      }
    }
  }

  /** Both are needed: seven bytes that hold no Message Type, so that none fails, leave the
      table of names. */
  lemma NamelessIsHeeded(rest: seq<byte>, s: Session, h: Hash, secret: seq<byte>)
    requires s.c.msgtype == -1
    ensures AllHeeded(NAMELESS + rest, 0, SHORTEST_NAMELESS, true, s, h, secret)
    ensures Walk(NAMELESS + rest, 0, SHORTEST_NAMELESS, true, s, h, secret).access == Unnamed
  {
    var buf, len := NAMELESS + rest, SHORTEST_NAMELESS;
    NamelessIsRead(rest, len, s, h, secret);
    hide Walk, Step, Claimed;
    NamelessFirst(rest, len, s, h, secret);
    NamelessSecond(rest, len, s, h, secret);
    var r := Step(buf, 0, len, true, s, h, secret);
    StepRan(r.buf, 1, len - 1, false, s, h, secret);
    GoOnInside(r.buf, 1, len - 1, false, s, h, secret);
    hide Result, Accessed;
    assert Heeded(r, s);
    assert Heeded(Step(r.buf, 1, len - 1, false, s, h, secret), s);
    assert AllHeeded(r.buf, 1, len - 1, false, s, h, secret);
  }
}
