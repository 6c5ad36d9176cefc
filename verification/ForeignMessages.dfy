/** Messages of other implementations: attributes in any number and order, attributes that are
    not known, and the states that await each message. */
module ForeignMessages {
  import opened Words
  import opened Splicing
  import opened HiddenAvp
  import opened AvpHandlers
  import opened AvpParser
  import opened AvpMessages

  // ----- what the header of an attribute decides -----

  /** The walk ends: the record is to be closed, with this error. */
  predicate Refused(v: Verdict, s: Session, error: int) {
    && !v.goOn && v.access.Fine? && v.calls == []
    && v.s == s.(c := s.c.(needClose := true, result := 2, error := error))
  }

  /** The walk goes on as if the attribute were not there. */
  predicate PassedOver(v: Verdict, s: Session) {
    v.goOn && v.access.Fine? && v.calls == [] && v.s == s
  }

  /** An attribute that cannot be handled ends the walk if its M bit is set, and is passed over
      if not. */
  predicate ByMBit(v: Verdict, s: Session, word: u16, error: int) {
    if word >= 0x8000 then Refused(v, s, error) else PassedOver(v, s)
  }

  /** For every attribute of every packet: one that is not known, has reserved bits set, is
      hidden without a random vector, or has no handler, goes by its M bit; one that is longer
      than the packet, shorter than its header, or first without being a Message Type, ends it. */
  lemma HeaderDecides(buf: seq<byte>, at: nat, len: nat, first: bool, s: Session, h: Hash, secret: seq<byte>)
    requires at + len <= |buf| && len > 0 && at + 6 <= |buf|
    ensures var v, word, attr := Step(buf, at, len, first, s, h, secret).v, Get16(buf, at), Get16(buf, at + 4);
            var n := word % 0x400;
            if attr > 39 then ByMBit(v, s, word, 6)
            else if n > len then Refused(v, s, 2)
            else if first && attr != 0 then Refused(v, s, 6)
            else if n < 6 then Refused(v, s, 2)
            else if (word / 0x400) % 16 != 0 then ByMBit(v, s, word, 3)
            else
              && ((word / 0x4000) % 2 == 1 && s.t.vector.NoVector? ==> ByMBit(v, s, word, 6))
              && ((word / 0x4000) % 2 == 0 && attr in {5, 12, 16, 17, 26, 27, 28, 34, 37} ==> ByMBit(v, s, word, 6))
  {
    SwappedWords(buf, at);
    hide SwapHeader, Run, AccessOf, Restored, RevealAt, GetLe, Get16;
  }

  // ----- a request for a call -----

  /** What a request may tell of the call. */
  datatype Field =
    | CallId(id: u16) | Serial(serno: u32) | Bearer(bearer: u32) | Channel(channel: u32)
    | Called(name: seq<byte>) | Calling(name: seq<byte>) | SubAddress(name: seq<byte>)

  function FieldAttr(f: Field): Attr {
    match f
    case CallId(x) => Attr(true, 14, Be16(x))
    case Serial(x) => Attr(true, 15, Be32(x))
    case Bearer(x) => Attr(true, 18, Be32(x))
    case Channel(x) => Attr(false, 25, Be32(x))
    case Called(s) => Attr(true, 21, Cut(s))
    case Calling(s) => Attr(true, 22, Cut(s))
    case SubAddress(s) => Attr(true, 23, Cut(s))
  }

  function Noted(p: ListedCall, f: Field): ListedCall {
    match f
    case CallId(x) => p.(cid := x)
    case Serial(x) => p.(serno := x)
    case Bearer(x) => p.(bearer := x % 0x1_0000)
    case Channel(x) => p.(physchan := x)
    case Called(s) => p.(dialed := StoredName(s))
    case Calling(s) => p.(dialing := StoredName(s))
    case SubAddress(s) => p.(subaddress := StoredName(s))
  }

  function FieldAttrs(fs: seq<Field>): seq<Attr> {
    if fs == [] then [] else [FieldAttr(fs[0])] + FieldAttrs(fs[1..])
  }

  function AllNoted(p: ListedCall, fs: seq<Field>): ListedCall
    decreases |fs|
  {
    if fs == [] then p else AllNoted(Noted(p, fs[0]), fs[1..])
  }

  /** The first call of the list with other contents. */
  function WithFirst(s: Session, p: ListedCall): Session
    requires s.calls != []
  {
    s.(calls := [p] + s.calls[1..])
  }

  lemma NumberDoes(f: Field, s: Session)
    requires s.c.msgtype == ICRQ && s.calls != [] && !s.c.isHead && !f.Called? && !f.Calling? && !f.SubAddress?
    ensures Does(FieldAttr(f), s, WithFirst(s, Noted(s.calls[0], f)))
  {
    match f {
      case CallId(x) => WordOfBe16(x, 0);
      case Serial(x) => LongOfBe32(x);
      case Bearer(x) => LongOfBe32(x);
      case Channel(x) => LongOfBe32(x);
    }
    hide Word, Long, Be32, Be16;
  }

  lemma FirstIsHead(s: Session, p: ListedCall)
    requires s.calls != [] && !s.c.isHead
    ensures s.WithHead(p) == WithFirst(s, p) && s.Head() == s.calls[0]
  {
  }

  lemma NameDoes(f: Field, s: Session)
    requires s.c.msgtype == ICRQ && s.calls != [] && !s.c.isHead && (f.Called? || f.Calling? || f.SubAddress?)
    ensures Does(FieldAttr(f), s, WithFirst(s, Noted(s.calls[0], f)))
  {
    hide Name, StoredName, Cut, MessageType, ResultCode, Word, Long, AvpHandlers.Fixed, IsSetup, WithFirst;
    hide Session.WithCid, Session.WithHead, Session.Head;
    NamesKept(f.name);
    FirstIsHead(s, Noted(s.calls[0], f));
    if f.Called? {
    } else if f.Calling? {
    } else {
    }
  }

  lemma FieldDoes(f: Field, s: Session)
    requires s.c.msgtype == ICRQ && s.calls != [] && !s.c.isHead
    ensures DoesAll([FieldAttr(f)], s, WithFirst(s, Noted(s.calls[0], f)))
  {
    hide Does, DoesAll, Noted, WithFirst, FieldAttr;
    if f.Called? || f.Calling? || f.SubAddress? {
      NameDoes(f, s);
    } else {
      NumberDoes(f, s);
    }
    DoesOne(FieldAttr(f), s, WithFirst(s, Noted(s.calls[0], f)));
  }

  lemma {:induction false} FieldsDo(fs: seq<Field>, s: Session)
    requires s.c.msgtype == ICRQ && s.calls != [] && !s.c.isHead
    ensures DoesAll(FieldAttrs(fs), s, WithFirst(s, AllNoted(s.calls[0], fs)))
  {
    if fs == [] {
      assert WithFirst(s, s.calls[0]) == s;
    } else {
      var s1 := WithFirst(s, Noted(s.calls[0], fs[0]));
      FieldDoes(fs[0], s);
      hide DoesAll, Noted;
      FieldsDo(fs[1..], s1);
      assert WithFirst(s1, AllNoted(s1.calls[0], fs[1..])) == WithFirst(s, AllNoted(s.calls[0], fs));
      DoesBoth([FieldAttr(fs[0])], FieldAttrs(fs[1..]), s, s1, WithFirst(s, AllNoted(s.calls[0], fs)));
    }
  }

  /** A request of any peer, with any of these attributes in any order: a call is created, and
      each of its fields is what the last attribute of that kind says. */
  lemma RequestTells(fs: seq<Field>, s: Session, pre: seq<byte>, post: seq<byte>, h: Hash, secret: seq<byte>)
    requires s.c.isSelf && s.t.state == SCCCN
    ensures AllSendable([Attr(true, 0, Be16(ICRQ))] + FieldAttrs(fs))
    ensures var body := WireAll([Attr(true, 0, Be16(ICRQ))] + FieldAttrs(fs));
            var w := Walk(pre + body + post, |pre|, |body|, true, s, h, secret);
            && w.ok && w.access.Fine? && w.s.t == s.t && w.s.c == s.c.(msgtype := ICRQ, isHead := false)
            && w.s.calls == [AllNoted(ListedCall(0, 0, -1, -1, [], [], []), fs)] + s.calls
  {
    var a := Attr(true, 0, Be16(ICRQ));
    var s1 := s.(c := s.c.(msgtype := ICRQ)).NewCall();
    WordOfBe16(ICRQ, 0);
    assert Does(a, s, s1);
    DoesOne(a, s, s1);
    FieldsDo(fs, s1);
    var s2 := WithFirst(s1, AllNoted(FRESH_CALL, fs));
    assert s2.calls == [AllNoted(FRESH_CALL, fs)] + s.calls;
    hide Walk, WireAll, AllNoted, FieldAttrs;
    DoesBoth([a], FieldAttrs(fs), s, s1, s2);
    WalkOfWire(pre, [a] + FieldAttrs(fs), post, true, s, h, secret);
  }

  // ----- a call that is connected -----

  datatype Detail = Sending(speed: u32) | Receiving(speed: u32) | Framing(frame: u32) | Delay(ppd: u16) | Sequenced

  function DetailAttr(d: Detail): Attr {
    match d
    case Sending(x) => Attr(true, 24, Be32(x))
    case Receiving(x) => Attr(false, 38, Be32(x))
    case Framing(x) => Attr(true, 19, Be32(x))
    case Delay(x) => Attr(true, 20, Be16(x))
    case Sequenced => Attr(true, 39, [])
  }

  function Detailed(c: CallInfo, d: Detail): CallInfo {
    match d
    case Sending(x) => c.(txspeed := x)
    case Receiving(x) => c.(rxspeed := x)
    case Framing(x) => c.(frame := x % 0x1_0000)
    case Delay(x) => c.(ppd := x)
    case Sequenced => c.(seqRequired := true)
  }

  function DetailAttrs(ds: seq<Detail>): seq<Attr> {
    if ds == [] then [] else [DetailAttr(ds[0])] + DetailAttrs(ds[1..])
  }

  function AllDetailed(c: CallInfo, ds: seq<Detail>): CallInfo
    decreases |ds|
  {
    if ds == [] then c else AllDetailed(Detailed(c, ds[0]), ds[1..])
  }

  lemma DetailDoes(d: Detail, s: Session)
    requires s.c.msgtype == ICCN
    ensures DoesAll([DetailAttr(d)], s, s.(c := Detailed(s.c, d)))
  {
    var a, s1 := DetailAttr(d), s.(c := Detailed(s.c, d));
    match d {
      case Sending(x) => LongOfBe32(x);
      case Receiving(x) => LongOfBe32(x);
      case Framing(x) => LongOfBe32(x);
      case Delay(x) => WordOfBe16(x, 0);
      case Sequenced =>
    }
    hide Word, Long, Be32, Be16;
    assert Does(a, s, s1);
    DoesOne(a, s, s1);
  }

  lemma {:induction false} DetailsDo(ds: seq<Detail>, s: Session)
    requires s.c.msgtype == ICCN
    ensures DoesAll(DetailAttrs(ds), s, s.(c := AllDetailed(s.c, ds)))
  {
    if ds != [] {
      var s1 := s.(c := Detailed(s.c, ds[0]));
      DetailDoes(ds[0], s);
      assert s1.c.msgtype == ICCN;
      hide DoesAll, Detailed;
      DetailsDo(ds[1..], s1);
      DoesBoth([DetailAttr(ds[0])], DetailAttrs(ds[1..]), s, s1, s.(c := AllDetailed(s.c, ds)));
    }
  }

  /** The same for the message that connects a call. */
  lemma ConnectionTells(ds: seq<Detail>, s: Session, pre: seq<byte>, post: seq<byte>, h: Hash, secret: seq<byte>)
    requires s.c.state == ICRP && !s.c.isSelf
    ensures AllSendable([Attr(true, 0, Be16(ICCN))] + DetailAttrs(ds))
    ensures var body := WireAll([Attr(true, 0, Be16(ICCN))] + DetailAttrs(ds));
            var w := Walk(pre + body + post, |pre|, |body|, true, s, h, secret);
            w.ok && w.access.Fine? && w.s == s.(c := AllDetailed(s.c.(msgtype := ICCN), ds))
  {
    var a := Attr(true, 0, Be16(ICCN));
    var s1 := s.(c := s.c.(msgtype := ICCN));
    WordOfBe16(ICCN, 0);
    assert Does(a, s, s1);
    DoesOne(a, s, s1);
    DetailsDo(ds, s1);
    hide Walk, WireAll, AllDetailed, DetailAttrs;
    DoesBoth([a], DetailAttrs(ds), s, s1, s.(c := AllDetailed(s1.c, ds)));
    WalkOfWire(pre, [a] + DetailAttrs(ds), post, true, s, h, secret);
  }

  // ----- values of a wrong size -----

  /** The messages that an attribute of fixed size is for. */
  function MeantFor(attr: nat): set<int> {
    match attr
    case 3 => {1, 2} case 4 => {1, 2} case 6 => {1, 2} case 9 => {1, 2, 4} case 10 => {1, 2, 4, 8, 9}
    case 13 => {2, 3} case 14 => {8, 10, 11, 14} case 18 => {7, 10} case 19 => {7, 9, 12}
    case 20 => {7, 8, 9, 11, 12} case 24 => {8, 9, 12} case 25 => {7, 8, 9, 10} case 38 => {8, 9, 12}
    case _ => {}
  }

  function SizeOf(attr: nat): nat {
    if attr == 13 then 16 else if attr in {3, 4, 18, 19, 24, 25, 38} then 4 else 2
  }

  /** An attribute of fixed size is accepted with that size, and refused with any other in the
      messages it is for: with a length error, but for the challenge response. In other messages
      it changes nothing. */
  lemma SizesChecked(s: Session, attr: nat, n: nat, data: seq<byte>)
    requires attr in {3, 4, 6, 9, 10, 13, 14, 18, 19, 20, 24, 25, 38} && n <= |data|
    ensures var r := Run(s, attr, n, data);
            && (r.ok <==> s.c.msgtype !in MeantFor(attr) || n == SizeOf(attr))
            && (s.c.msgtype !in MeantFor(attr) ==> r.s == s)
            && (!r.ok ==> r.s == if attr == 13 then s else LengthError(s))
  {
    hide Word, Long, Session.WithHead, Session.WithCid, Session.Head;
  }

  function LengthError(s: Session): Session {
    s.(c := s.c.(error := 2, result := 2, needClose := true))
  }

  /** So are the protocol version and the request for sequencing, in every message, and a Message
      Type, which is taken for what it says all the same. */
  lemma OtherSizesChecked(s: Session, n: nat, data: seq<byte>)
    requires n <= |data|
    ensures Run(s, 2, n, data) == if n == 2 then Handled(s, true) else Handled(LengthError(s), false)
    ensures n != 0 ==> Run(s, 39, n, data) == Handled(LengthError(s), false)
    ensures n == 0 && s.c.msgtype != 12 ==> Run(s, 39, n, data) == Handled(s, false)
    ensures n != 2 ==> Run(s, 0, n, data) == Handled(LengthError(s.(c := s.c.(msgtype := Word(data, 0)))), false)
  {
    hide Word, StateAllows;
  }

  // ----- why a tunnel or call is closed -----

  /** A code in whichever byte order it came. */
  function Ordered(x: u16): u16 {
    if x >= 0x100 && x % 0x100 == 0 then x / 0x100 else x
  }

  /** Result code, error code and text of a StopCCN or CDN are stored exactly if the result is one
      of the 7 or 11 there are; otherwise the attribute is passed over. */
  lemma CodesStoredExactly(s: Session, result: u16, error: u16, text: seq<byte>)
    requires (s.c.msgtype == 4 || s.c.msgtype == 14) && |text| <= NAME_MAX
    ensures var value, r := Be16(result) + Be16(error) + text, Ordered(result);
            var stored := s.(c := s.c.(result := r, error := Ordered(error), errormsg := CString(text)));
            Run(s, 1, |value|, value) ==
              Handled(if 1 <= r <= (if s.c.msgtype == 4 then 7 else 11) then stored else s, true)
  {
    CodesValue(result, error, text);
    hide Word, Name, CString, Be16;
  }

  // ----- the states that await a message -----

  /** What a tunnel awaits in each state (section 7.2.1 of RFC 2661). */
  function TunnelAwaits(state: int): set<int> {
    if state == 0 then {1} else if state == 1 then {1, 2} else if state == 2 then {3}
    else if state == 3 then {10} else {}
  }

  /** What a call awaits (sections 7.4.1 to 7.5.2): the answer to its request once the tunnel is
      up, the connection, and, when connected, news of the link. */
  function CallAwaits(state: int, up: bool): set<int> {
    if state == 10 then (if up then {11} else {}) else if state == 11 then {12}
    else if state == 7 then (if up then {8, 9} else {9}) else if state == 12 then {16} else {}
  }

  /** A message is allowed exactly if it is a StopCCN on the tunnel, a Hello or a CDN, or one that
      the tunnel, for messages on it, or the call awaits. */
  lemma AllowedExactly(s: Session, m: int)
    requires KnownType(m)
    ensures StateAllows(s, m) <==>
              || m == 6 || m == 14 || (m == 4 && s.c.isSelf)
              || (s.c.isSelf && m in TunnelAwaits(s.t.state))
              || m in CallAwaits(s.c.state, s.t.state == 3)
  {
  }

  // ----- what our own messages must hold -----

  /** The attributes that section 6 of RFC 2661 asks of each message. */
  function Required(m: Message): set<nat> {
    match m
    case Sccrq(_, _, _, _, _, _, _) => {0, 2, 3, 7, 9}
    case Sccrp(_, _, _, _, _, _, _, _) => {0, 2, 3, 7, 9}
    case Scccn(_, _) => {0}
    case StopCcn(_, _, _, _, _) => {0, 9, 1}
    case Hello => {0}
    case Icrq(_, _, _, _) => {0, 14, 15}
    case Icrp(_, _) => {0, 14}
    case Iccn(_, _, _, _) => {0, 24, 19}
    case Cdn(_, _, _, _, _) => {0, 1, 14}
  }

  predicate Has(attrs: seq<Attr>, attr: nat) {
    exists i :: 0 <= i < |attrs| && attrs[i].attr == attr && attrs[i].mandatory
  }

  lemma HasBehind(a: seq<Attr>, b: seq<Attr>, attr: nat)
    requires Has(b, attr)
    ensures Has(a + b, attr)
  {
    var i :| 0 <= i < |b| && b[i].attr == attr && b[i].mandatory;
    assert (a + b)[|a| + i] == b[i];
  }

  lemma HasBefore(a: seq<Attr>, b: seq<Attr>, attr: nat)
    requires Has(a, attr)
    ensures Has(a + b, attr)
  {
    var i :| 0 <= i < |a| && a[i].attr == attr && a[i].mandatory;
    assert (a + b)[i] == a[i];
  }

  lemma IntroductionHas(fc: u16, bc: u16, host: seq<byte>, tid: u16)
    ensures var a := Introduction(fc, bc, host, tid);
            |a| > 0 && a[0] == Attr(true, 2, [1, 0]) && Has(a, 2) && Has(a, 3) && Has(a, 7) && Has(a, 9)
  {
    var a := Introduction(fc, bc, host, tid);
    assert a[0].attr == 2 && a[1].attr == 3 && a[4].attr == 7 && a[6].attr == 9;
  }

  lemma BodyHas(m: Message, attr: nat)
    requires attr in Required(m) && attr != 0
    ensures Has(Body(m), attr)
  {
    if m.Sccrq? || m.Sccrp? {
      IntroductionHas(m.fc, m.bc, m.host, m.tid);
      hide Introduction, Has;
      var intro := Introduction(m.fc, m.bc, m.host, m.tid);
      HasBefore(intro, OptRws(m.rws), attr);
      var more := intro + OptRws(m.rws);
      if m.Sccrq? {
        HasBefore(more, OptAttr(11, m.challenge), attr);
      } else {
        HasBefore(more, OptAttr(13, m.response), attr);
        HasBefore(more + OptAttr(13, m.response), OptAttr(11, m.challenge), attr);
      }
    } else {
      var b := Body(m);
      assert b[0].attr == attr || b[1].attr == attr;
    }
  }

  /** Every message of the daemon begins with its type and has them all, with the M bit set. */
  lemma RequiredArePresent(m: Message, attr: nat)
    requires attr in Required(m)
    ensures Attrs(m)[0] == Attr(true, 0, [0, TypeOf(m)]) && Has(Attrs(m), attr)
  {
    var head := [Attr(true, 0, Be16(TypeOf(m)))];
    hide Body, Vectors, Required, TypeOf;
    assert Attrs(m)[0] == head[0] && Attrs(m) == head + Vectors(m) + Body(m);
    if attr == 0 {
      assert Attrs(m)[0].attr == 0;
    } else {
      hide Has, Attrs;
      BodyHas(m, attr);
      HasBehind(head + Vectors(m), Body(m), attr);
    }
  }

  /** One that introduces it names version 1.0 of the protocol. */
  lemma VersionIsNamed(m: Message)
    requires m.Sccrq? || m.Sccrp?
    ensures Body(m) != [] && Body(m)[0] == Attr(true, 2, [1, 0])
  {
    IntroductionHas(m.fc, m.bc, m.host, m.tid);
    hide Introduction, Has;
    assert |Introduction(m.fc, m.bc, m.host, m.tid)| > 0;
  }
}
