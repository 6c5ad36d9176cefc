/** Building control messages and reading them back: what the builders put into a
    packet is what the handlers take out of it. */
module AvpMessages {
  import opened Words
  import opened HiddenAvp
  import opened AvpHandlers
  import opened AvpParser

  const VALUE_MAX := 1017  // the largest AVP less its header

  /** An attribute to be sent. */
  datatype Attr = Attr(mandatory: bool, attr: nat, value: seq<byte>)

  predicate Sendable(a: Attr) {
    HasHandler(a.attr) && |a.value| <= VALUE_MAX && (a.attr == 0 ==> |a.value| >= 2)
    && (a.attr == 15 ==> |a.value| >= 4)
  }

  predicate AllSendable(attrs: seq<Attr>) {
    forall a <- attrs :: Sendable(a)
  }

  function LengthWord(a: Attr): u16
    requires Sendable(a)
  {
    (if a.mandatory then 0x8000 else 0) + AVP_HDR + |a.value|
  }

  function Wire(a: Attr): (w: seq<byte>)
    requires Sendable(a)
    ensures |w| == AVP_HDR + |a.value|
  {
    WireHeader(LengthWord(a), 0, a.attr) + a.value
  }

  function WireAll(attrs: seq<Attr>): seq<byte>
    requires AllSendable(attrs)
  {
    if attrs == [] then [] else Wire(attrs[0]) + WireAll(attrs[1..])
  }

  /** What came of an attribute or a list of them: go on, or not and why. */
  datatype Done = Done(s: Session, goOn: bool, access: Access)

  /** The handler of `a` run over its value alone. */
  function Handle(a: Attr, s: Session): Done
    requires Sendable(a)
  {
    var access := AccessOf(s, a.attr, |a.value|);
    if access != Fine then Done(s, false, access)
    else
      var r := Run(s, a.attr, |a.value|, a.value);
      if !r.ok && a.mandatory then Done(r.s.(c := r.s.c.(needClose := true)), false, Fine) else Done(r.s, true, Fine)
  }

  /** The handlers run one after the other. */
  function HandleAll(attrs: seq<Attr>, s: Session): Done
    requires AllSendable(attrs)
  {
    if attrs == [] then Done(s, true, Fine)
    else
      assert Sendable(attrs[0]);
      var r := Handle(attrs[0], s);
      if r.goOn then HandleAll(attrs[1..], r.s) else r
  }

  // ----- parsing what was built -----

  /** A handler looks at nothing behind its value. */
  lemma RunReadsValue(s: Session, attr: nat, value: seq<byte>, rest: seq<byte>)
    requires Sendable(Attr(true, attr, value))
    ensures Run(s, attr, |value|, value + rest) == Run(s, attr, |value|, value)
  {
    var n, data := |value|, value + rest;
    assert data[..n] == value && value[..n] == value;
    assert n >= 2 ==> Word(data, 0) == Word(value, 0);
    assert n >= 4 ==> Word(data, 2) == Word(value, 2);
    NameReadsValue(value, rest);
    if n > 4 {
      NameReadsValue(value[4..], rest);
      assert data[4..] == value[4..] + rest;
    }
    hide Name, Word;
  }

  lemma NameReadsValue(value: seq<byte>, rest: seq<byte>)
    ensures Name(value + rest, |value|) == Name(value, |value|)
  {
    var n := if |value| > NAME_MAX then NAME_MAX else |value|;
    assert (value + rest)[..n] == value[..n];
  }

  lemma WireRules(a: Attr, len: nat, first: bool)
    requires Sendable(a) && AVP_HDR + |a.value| <= len && (first ==> a.attr == 0)
    ensures Rule(LengthWord(a), a.attr, len, first) == Plain
    ensures Length(LengthWord(a)) == AVP_HDR + |a.value| && (Mandatory(LengthWord(a)) <==> a.mandatory)
  {
  }

  lemma SplitAround(pre: seq<byte>, head: seq<byte>, value: seq<byte>, post: seq<byte>)
    requires |head| == AVP_HDR
    ensures var buf := pre + (head + value) + post;
            buf[|pre|..] == head + (value + post) && buf[|pre| + AVP_HDR..] == value + post
  {
    assert (pre + (head + value) + post)[|pre|..] == (head + value) + post;
  }

  lemma Get16Offset(s: seq<byte>, i: nat, j: nat)
    requires i + j + 2 <= |s|
    ensures Get16(s[i..], j) == Get16(s, i + j)
  {
  }

  lemma SwapKeepsTail(buf: seq<byte>, at: nat)
    requires at + AVP_HDR <= |buf|
    ensures SwapHeader(buf, at)[at + AVP_HDR..] == buf[at + AVP_HDR..]
  {
  }

  /** A buffer that continues with an attribute: its header words, and what follows
      the header once that is swapped. */
  lemma WireAt(pre: seq<byte>, a: Attr, post: seq<byte>)
    requires Sendable(a)
    ensures var buf, at := pre + Wire(a) + post, |pre|;
            && Get16(buf, at) == LengthWord(a) && Get16(buf, at + 4) == a.attr
            && SwapHeader(buf, at)[at + AVP_HDR..] == a.value + post
  {
    var buf, at := pre + Wire(a) + post, |pre|;
    hide WireHeader, SwapHeader, Get16, LengthWord;
    SplitAround(pre, WireHeader(LengthWord(a), 0, a.attr), a.value, post);
    HeaderFields(LengthWord(a), 0, a.attr, a.value + post);
    Get16Offset(buf, at, 0);
    Get16Offset(buf, at, 4);
    SwapKeepsTail(buf, at);
  }

  /** One step of the walk over a built attribute is one handler run. */
  lemma StepOfWire(pre: seq<byte>, a: Attr, post: seq<byte>, len: nat, first: bool, s: Session, h: Hash,
                   secret: seq<byte>)
    requires Sendable(a) && (first ==> a.attr == 0)
    requires AVP_HDR + |a.value| <= len && len - AVP_HDR - |a.value| <= |post|
    ensures var buf := pre + Wire(a) + post;
            var r := Step(buf, |pre|, len, first, s, h, secret);
            && Claimed(buf, |pre|) == AVP_HDR + |a.value|
            && |r.buf| == |buf| && r.buf[|pre| + AVP_HDR + |a.value|..] == post
            && Done(r.v.s, r.v.goOn, r.v.access) == Handle(a, s)
  {
    var buf, at := pre + Wire(a) + post, |pre|;
    hide SwapHeader, GetLe, Get16, Rule, LengthWord, Wire, Run, HiddenStep, AccessOf, Dispatch, Handle, Length;
    WireAt(pre, a, post);
    WireRules(a, len, first);
    SwappedWords(buf, at);
    var b := SwapHeader(buf, at);
    assert Step(buf, at, len, first, s, h, secret) == Stepped(b, Dispatch(b, at, LengthWord(a), a.attr, s));
    assert b[at + AVP_HDR + |a.value|..] == (a.value + post)[|a.value|..];
    DispatchOfWire(b, at, a, post, s);
  }

  /** A handler given the header word of `a` and its value runs on that. */
  lemma DispatchOfWire(b: seq<byte>, at: nat, a: Attr, post: seq<byte>, s: Session)
    requires Sendable(a) && at + AVP_HDR + |a.value| <= |b| && b[at + AVP_HDR..] == a.value + post
    ensures Length(LengthWord(a)) == AVP_HDR + |a.value|
    ensures var d := Dispatch(b, at, LengthWord(a), a.attr, s); Done(d.s, d.goOn, d.access) == Handle(a, s)
  {
    WireRules(a, AVP_HDR + |a.value|, false);
    RunReadsValue(s, a.attr, a.value, post);
    assert Touched(a.attr, s.c.msgtype, AVP_HDR + |a.value|) == AVP_HDR + |a.value|;
    hide Run, AccessOf, LengthWord, Length, Mandatory, Touched;
  }

  /** Walking over built attributes is running their handlers in order. */
  lemma {:induction false} WalkOfWire(pre: seq<byte>, attrs: seq<Attr>, post: seq<byte>, first: bool, s: Session,
                                      h: Hash, secret: seq<byte>)
    requires AllSendable(attrs) && (first && attrs != [] ==> attrs[0].attr == 0)
    ensures var w, r := Walk(pre + WireAll(attrs) + post, |pre|, |WireAll(attrs)|, first, s, h, secret),
            HandleAll(attrs, s);
            w.ok == r.goOn && w.s == r.s && w.access == r.access
    decreases |attrs|
  {
    hide Walk, Step, Wire, Handle, Claimed;
    var buf := pre + WireAll(attrs) + post;
    WalkUnfolds(buf, |pre|, |WireAll(attrs)|, first, s, h, secret);
    if attrs != [] {
      var a, rest := attrs[0], attrs[1..];
      assert Sendable(a);
      var body, n := WireAll(rest), AVP_HDR + |a.value|;
      assert buf == pre + Wire(a) + (body + post);
      StepOfWire(pre, a, body + post, n + |body|, first, s, h, secret);
      var r := Step(buf, |pre|, n + |body|, first, s, h, secret);
      if r.v.goOn {
        RegroupTail(r.buf, |pre| + n, body, post);
        WalkOfWire(r.buf[..|pre| + n], rest, post, false, r.v.s, h, secret);
      }
    }
  }

  lemma RegroupTail(s: seq<byte>, n: nat, body: seq<byte>, post: seq<byte>)
    requires n <= |s| && s[n..] == body + post
    ensures s == s[..n] + body + post
  {
    assert s == s[..n] + s[n..];
  }

  lemma {:induction false} HandleAllConcat(a: seq<Attr>, b: seq<Attr>, s: Session)
    requires AllSendable(a) && AllSendable(b) && HandleAll(a, s).goOn
    ensures AllSendable(a + b) && HandleAll(a + b, s) == HandleAll(b, HandleAll(a, s).s)
    decreases |a|
  {
    if a == [] {
      assert a + b == b;
    } else {
      hide Run;
      assert Sendable(a[0]) && (a + b)[1..] == a[1..] + b;
      var r := Run(s, a[0].attr, |a[0].value|, a[0].value);
      HandleAllConcat(a[1..], b, r.s);
    }
  }

  // ----- the messages of the daemon -----

  const PROTOCOL_VERSION: u16 := 0x100
  const FIRMWARE: u16 := 0x690
  const VENDOR_NAME: seq<byte> := [120, 101, 108, 101, 114, 97, 110, 99, 101, 46, 99, 111, 109]

  datatype Opt<T> = None | Some(value: T)

  /** A control message as the daemon sends it; `vector` is there when hiding is allowed. */
  datatype Message =
    | Sccrq(vector: Opt<seq<byte>>, fc: u16, bc: u16, host: seq<byte>, tid: u16, rws: Opt<u16>,
            challenge: Opt<seq<byte>>)
    | Sccrp(vector: Opt<seq<byte>>, fc: u16, bc: u16, host: seq<byte>, tid: u16, rws: Opt<u16>,
            response: Opt<seq<byte>>, challenge: Opt<seq<byte>>)
    | Scccn(vector: Opt<seq<byte>>, response: Opt<seq<byte>>)
    | StopCcn(vector: Opt<seq<byte>>, tid: u16, result: u16, error: u16, text: seq<byte>)
    | Hello
    | Icrq(vector: Opt<seq<byte>>, cid: u16, serno: u32, bearer: u32)
    | Icrp(vector: Opt<seq<byte>>, cid: u16)
    | Iccn(vector: Opt<seq<byte>>, txspeed: u32, frame: u32, rxspeed: u32)
    | Cdn(vector: Opt<seq<byte>>, result: u16, error: u16, text: seq<byte>, cid: u16)

  function TypeOf(m: Message): u16 {
    match m
    case Sccrq(_, _, _, _, _, _, _) => SCCRQ
    case Sccrp(_, _, _, _, _, _, _, _) => SCCRP
    case Scccn(_, _) => SCCCN
    case StopCcn(_, _, _, _, _) => STOPCCN
    case Hello => HELLO
    case Icrq(_, _, _, _) => ICRQ
    case Icrp(_, _) => ICRP
    case Iccn(_, _, _, _) => ICCN
    case Cdn(_, _, _, _, _) => CDN
  }

  /** Sizes the daemon keeps to. */
  predicate Sized(m: Message) {
    && (!m.Hello? && m.vector.Some? ==> |m.vector.value| == SIG_SIZE)
    && ((m.Sccrq? || m.Sccrp?) && m.challenge.Some? ==> |m.challenge.value| <= VALUE_MAX)
    && ((m.Sccrp? || m.Scccn?) && m.response.Some? ==> |m.response.value| == SIG_SIZE)
    && (m.StopCcn? || m.Cdn? ==> |m.text| <= NAME_MAX && 1 <= m.result <= (if m.Cdn? then 11 else 7))
  }

  function OptAttr(attr: nat, o: Opt<seq<byte>>): seq<Attr> {
    if o.Some? then [Attr(true, attr, o.value)] else []
  }

  function OptRws(o: Opt<u16>): seq<Attr> {
    if o.Some? then [Attr(true, 10, Be16(o.value))] else []
  }

  function Cut(name: seq<byte>): seq<byte> {
    if |name| > VALUE_MAX then name[..VALUE_MAX] else name
  }

  function Vectors(m: Message): seq<Attr> {
    if m.Hello? then [] else OptAttr(36, m.vector)
  }

  /** The attributes that introduce a peer. */
  function Introduction(fc: u16, bc: u16, host: seq<byte>, tid: u16): seq<Attr> {
    [Attr(true, 2, Be16(PROTOCOL_VERSION)), Attr(true, 3, Be16(0) + Be16(fc)), Attr(true, 4, Be16(0) + Be16(bc)),
     Attr(false, 6, Be16(FIRMWARE)), Attr(true, 7, Cut(host)), Attr(false, 8, VENDOR_NAME), Attr(true, 9, Be16(tid))]
  }

  function Codes(result: u16, error: u16, text: seq<byte>): Attr {
    Attr(true, 1, Be16(result) + Be16(error) + text)
  }

  /** What follows the message type and the random vector. */
  function Body(m: Message): seq<Attr> {
    match m
    case Sccrq(_, fc, bc, host, tid, rws, challenge) =>
      Introduction(fc, bc, host, tid) + OptRws(rws) + OptAttr(11, challenge)
    case Sccrp(_, fc, bc, host, tid, rws, response, challenge) =>
      Introduction(fc, bc, host, tid) + OptRws(rws) + OptAttr(13, response) + OptAttr(11, challenge)
    case Scccn(_, response) => OptAttr(13, response)
    case StopCcn(_, tid, result, error, text) => [Attr(true, 9, Be16(tid)), Codes(result, error, text)]
    case Hello => []
    case Icrq(_, cid, serno, bearer) =>
      [Attr(true, 14, Be16(cid)), Attr(true, 15, Be32(serno)), Attr(true, 18, Be32(bearer))]
    case Icrp(_, cid) => [Attr(true, 14, Be16(cid))]
    case Iccn(_, txspeed, frame, rxspeed) =>
      [Attr(true, 24, Be32(txspeed)), Attr(true, 19, Be32(frame)), Attr(false, 38, Be32(rxspeed))]
    case Cdn(_, result, error, text, cid) => [Codes(result, error, text), Attr(true, 14, Be16(cid))]
  }

  function Attrs(m: Message): seq<Attr> {
    [Attr(true, 0, Be16(TypeOf(m)))] + Vectors(m) + Body(m)
  }

  // ----- what the receiver learns -----

  /** The session after a message type and an optional random vector. */
  function Opened(s: Session, m: Message): Session {
    var s0 := s.(c := s.c.(msgtype := TypeOf(m)));
    var s1 := if m.Icrq? then s0.NewCall() else s0;
    if !m.Hello? && m.vector.Some? then s1.(t := s1.t.(vector := Vector(m.vector.value))) else s1
  }

  function Introduced(t: TunnelInfo, fc: u16, bc: u16, host: seq<byte>, tid: u16, rws: Opt<u16>,
                      challenge: Opt<seq<byte>>): TunnelInfo {
    t.(fc := fc % 4, bc := bc % 4, firmware := FIRMWARE, hostname := StoredName(host), vendor := VENDOR_NAME,
       tid := tid, rws := if rws.Some? then rws.value else t.rws,
       challenge := if challenge.Some? then Challenge(challenge.value) else t.challenge)
  }

  /** A name as the receiver keeps it: at most 119 bytes, up to the first zero. */
  function StoredName(name: seq<byte>): (r: seq<byte>)
    ensures r <= name && |r| <= 119 && 0 !in r && (|r| < |name| && |r| < 119 ==> name[|r|] == 0)
  {
    CString(if |name| > NAME_MAX then name[..NAME_MAX] else name)
  }

  /** What a message tells its receiver. */
  function Learned(s: Session, m: Message): Session {
    var s1 := Opened(s, m);
    match m
    case Sccrq(_, fc, bc, host, tid, rws, challenge) => s1.(t := Introduced(s1.t, fc, bc, host, tid, rws, challenge))
    case Sccrp(_, fc, bc, host, tid, rws, response, challenge) =>
      var t := Introduced(s1.t, fc, bc, host, tid, rws, challenge);
      s1.(t := if response.Some? then t.(reply := response.value) else t)
    case Scccn(_, response) => s1.(t := if response.Some? then s1.t.(reply := response.value) else s1.t)
    case StopCcn(_, tid, result, error, text) =>
      s1.(t := s1.t.(qtid := tid), c := s1.c.(result := result, error := FixOrder(error), errormsg := CString(text)))
    case Hello => s1
    case Icrq(_, cid, serno, bearer) =>
      s1.(calls := [FRESH_CALL.(cid := cid, serno := serno, bearer := bearer % 0x1_0000)] + s.calls)
    case Icrp(_, cid) => s1.WithCid(cid)
    case Iccn(_, txspeed, frame, rxspeed) =>
      s1.(c := s1.c.(txspeed := txspeed, frame := frame % 0x1_0000, rxspeed := rxspeed))
    case Cdn(_, result, error, text, cid) =>
      s1.(c := s1.c.(result := result, error := FixOrder(error), errormsg := CString(text), qcid := cid))
  }

  /** An error code comes back as sent exactly when it does not look byte-swapped. */
  lemma ErrorCodeKept(error: u16)
    ensures FixOrder(error) == error <==> error == 0 || error % 0x100 != 0
    ensures error % 0x100 == 0 ==> FixOrder(error) * 0x100 == error
  {
  }

  // ----- every message is understood -----

  /** The handler of `a` accepts it and turns `s` into `s1`. */
  predicate Does(a: Attr, s: Session, s1: Session) {
    && Sendable(a) && AccessOf(s, a.attr, |a.value|) == Fine
    && Run(s, a.attr, |a.value|, a.value) == Handled(s1, true)
  }

  /** All of `attrs` is accepted and turns `s` into `s1`. */
  predicate DoesAll(attrs: seq<Attr>, s: Session, s1: Session) {
    AllSendable(attrs) && HandleAll(attrs, s) == Done(s1, true, Fine)
  }

  lemma DoesOne(a: Attr, s: Session, s1: Session)
    requires Does(a, s, s1)
    ensures DoesAll([a], s, s1)
  {
    hide Run;
    var none: seq<Attr> := [];
    assert [a][0] == a && [a][1..] == none && HandleAll(none, s1) == Done(s1, true, Fine);
    assert AllSendable([a]);
  }

  lemma DoesBoth(a: seq<Attr>, b: seq<Attr>, s: Session, s1: Session, s2: Session)
    requires DoesAll(a, s, s1) && DoesAll(b, s1, s2)
    ensures DoesAll(a + b, s, s2)
  {
    HandleAllConcat(a, b, s);
  }

  lemma WordOfBe16(x: u16, y: u16)
    ensures Word(Be16(x), 0) == x && Word(Be16(x) + Be16(y), 0) == x && Word(Be16(x) + Be16(y), 2) == y
  {
  }

  lemma LongOfBe32(x: u32)
    ensures |Be32(x)| == 4 && Long(Be32(x)) == x && Word(Be32(x), 2) == x % 0x1_0000
  {
    WordOfBe16(x / 0x1_0000, x % 0x1_0000);
    hide Word, Be16;
  }

  lemma {:induction false} NoZeroKept(s: seq<byte>)
    requires 0 !in s
    ensures CString(s) == s
  {
    if s != [] {
      NoZeroKept(s[1..]);
    }
  }

  lemma OpeningDoes(m: Message, s: Session)
    requires Sized(m) && StateAllows(s.(c := s.c.(msgtype := TypeOf(m))), TypeOf(m))
    ensures DoesAll([Attr(true, 0, Be16(TypeOf(m)))] + Vectors(m), s, Opened(s, m))
  {
    var a := Attr(true, 0, Be16(TypeOf(m)));
    var s0 := s.(c := s.c.(msgtype := TypeOf(m)));
    var s1 := if m.Icrq? then s0.NewCall() else s0;
    WordOfBe16(TypeOf(m), 0);
    assert Does(a, s, s1);
    DoesOne(a, s, s1);
    if !m.Hello? && m.vector.Some? {
      var v := Attr(true, 36, m.vector.value);
      assert v.value[..|v.value|] == v.value;
      assert Does(v, s1, Opened(s, m));
      DoesOne(v, s1, Opened(s, m));
      DoesBoth([a], [v], s, s1, Opened(s, m));
    } else {
      assert [a] + Vectors(m) == [a];
    }
  }

  lemma NamesKept(name: seq<byte>)
    ensures |Cut(name)| <= VALUE_MAX && Name(Cut(name), |Cut(name)|) == StoredName(name)
  {
    hide CString;
    if |name| > VALUE_MAX {
      assert Cut(name)[..NAME_MAX] == name[..NAME_MAX];
    } else if |name| <= NAME_MAX {
      assert Cut(name)[..|name|] == name;
    }
  }

  lemma VendorKept()
    ensures |VENDOR_NAME| == 13 && Name(VENDOR_NAME, 13) == VENDOR_NAME
  {
    hide CString;
    NoZeroKept(VENDOR_NAME);
    assert VENDOR_NAME[..13] == VENDOR_NAME;
  }

  lemma CapsDo(fc: u16, bc: u16, s: Session, s1: Session)
    requires IsSetup(s.c.msgtype) && s1 == s.(t := s.t.(fc := fc % 4, bc := bc % 4))
    ensures DoesAll([Attr(true, 2, Be16(PROTOCOL_VERSION)), Attr(true, 3, Be16(0) + Be16(fc)),
                     Attr(true, 4, Be16(0) + Be16(bc))], s, s1)
  {
    WordOfBe16(0, fc);
    WordOfBe16(0, bc);
    var a, b, c := Attr(true, 2, Be16(PROTOCOL_VERSION)), Attr(true, 3, Be16(0) + Be16(fc)),
        Attr(true, 4, Be16(0) + Be16(bc));
    var sb := s.(t := s.t.(fc := fc % 4));
    assert Does(a, s, s) && Does(b, s, sb) && Does(c, sb, s1);
    DoesOne(a, s, s);
    DoesOne(b, s, sb);
    DoesOne(c, sb, s1);
    DoesBoth([a], [b], s, s, sb);
    DoesBoth([a] + [b], [c], s, sb, s1);
    assert [a] + [b] + [c] == [a, b, c];
  }

  lemma FirmwareDoes(s: Session)
    requires IsSetup(s.c.msgtype)
    ensures DoesAll([Attr(false, 6, Be16(FIRMWARE))], s, s.(t := s.t.(firmware := FIRMWARE)))
  {
    WordOfBe16(FIRMWARE, 0);
    DoesOne(Attr(false, 6, Be16(FIRMWARE)), s, s.(t := s.t.(firmware := FIRMWARE)));
  }

  lemma HostnameDoes(host: seq<byte>, s: Session)
    requires IsSetup(s.c.msgtype)
    ensures DoesAll([Attr(true, 7, Cut(host))], s, s.(t := s.t.(hostname := StoredName(host))))
  {
    NamesKept(host);
    hide Name, StoredName, Cut;
    DoesOne(Attr(true, 7, Cut(host)), s, s.(t := s.t.(hostname := StoredName(host))));
  }

  lemma VendorDoes(s: Session)
    requires IsSetup(s.c.msgtype)
    ensures DoesAll([Attr(false, 8, VENDOR_NAME)], s, s.(t := s.t.(vendor := VENDOR_NAME)))
  {
    VendorKept();
    hide Name;
    DoesOne(Attr(false, 8, VENDOR_NAME), s, s.(t := s.t.(vendor := VENDOR_NAME)));
  }

  lemma TunnelIdDoes(tid: u16, s: Session)
    requires IsSetup(s.c.msgtype)
    ensures DoesAll([Attr(true, 9, Be16(tid))], s, s.(t := s.t.(tid := tid)))
  {
    WordOfBe16(tid, 0);
    DoesOne(Attr(true, 9, Be16(tid)), s, s.(t := s.t.(tid := tid)));
  }

  lemma NamesDo(host: seq<byte>, tid: u16, s: Session, s1: Session)
    requires IsSetup(s.c.msgtype)
    requires s1 == s.(t := s.t.(firmware := FIRMWARE, hostname := StoredName(host), vendor := VENDOR_NAME, tid := tid))
    ensures DoesAll([Attr(false, 6, Be16(FIRMWARE)), Attr(true, 7, Cut(host)), Attr(false, 8, VENDOR_NAME),
                     Attr(true, 9, Be16(tid))], s, s1)
  {
    hide *;
    var a, b, c, d := [Attr(false, 6, Be16(FIRMWARE))], [Attr(true, 7, Cut(host))], [Attr(false, 8, VENDOR_NAME)],
                      [Attr(true, 9, Be16(tid))];
    var sa := s.(t := s.t.(firmware := FIRMWARE));
    var sb := sa.(t := sa.t.(hostname := StoredName(host)));
    var sc := sb.(t := sb.t.(vendor := VENDOR_NAME));
    FirmwareDoes(s);
    HostnameDoes(host, sa);
    VendorDoes(sb);
    TunnelIdDoes(tid, sc);
    DoesBoth(a, b, s, sa, sb);
    DoesBoth(a + b, c, s, sb, sc);
    DoesBoth(a + b + c, d, s, sc, s1);
    assert a + b + c + d == [a[0], b[0], c[0], d[0]];
  }

  lemma OptDoes(attr: nat, o: Opt<seq<byte>>, s: Session, s1: Session)
    requires o.None? ==> s1 == s
    requires o.Some? ==> Does(Attr(true, attr, o.value), s, s1)
    ensures DoesAll(OptAttr(attr, o), s, s1)
  {
    hide Run;
    if o.Some? {
      DoesOne(Attr(true, attr, o.value), s, s1);
    }
  }

  lemma RwsDoes(o: Opt<u16>, s: Session, s1: Session)
    requires IsSetup(s.c.msgtype) && s1 == s.(t := s.t.(rws := if o.Some? then o.value else s.t.rws))
    ensures DoesAll(OptRws(o), s, s1)
  {
    if o.Some? {
      WordOfBe16(o.value, 0);
      assert Does(Attr(true, 10, Be16(o.value)), s, s1);
      DoesOne(Attr(true, 10, Be16(o.value)), s, s1);
    }
  }

  lemma IntroductionDoes(fc: u16, bc: u16, host: seq<byte>, tid: u16, rws: Opt<u16>, s: Session, s1: Session)
    requires IsSetup(s.c.msgtype) && s1 == s.(t := Introduced(s.t, fc, bc, host, tid, rws, None))
    ensures DoesAll(Introduction(fc, bc, host, tid) + OptRws(rws), s, s1)
  {
    var sa := s.(t := s.t.(fc := fc % 4, bc := bc % 4));
    var sb := sa.(t := sa.t.(firmware := FIRMWARE, hostname := StoredName(host), vendor := VENDOR_NAME, tid := tid));
    CapsDo(fc, bc, s, sa);
    NamesDo(host, tid, sa, sb);
    RwsDoes(rws, sb, s1);
    var a := [Attr(true, 2, Be16(PROTOCOL_VERSION)), Attr(true, 3, Be16(0) + Be16(fc)),
              Attr(true, 4, Be16(0) + Be16(bc))];
    var b := [Attr(false, 6, Be16(FIRMWARE)), Attr(true, 7, Cut(host)), Attr(false, 8, VENDOR_NAME),
              Attr(true, 9, Be16(tid))];
    DoesBoth(a, b, s, sa, sb);
    assert a + b == Introduction(fc, bc, host, tid);
    hide DoesAll, Introduction, OptRws;
    DoesBoth(Introduction(fc, bc, host, tid), OptRws(rws), s, sb, s1);
  }

  lemma CodesDo(result: u16, error: u16, text: seq<byte>, s: Session, s1: Session)
    requires s.c.msgtype == STOPCCN || s.c.msgtype == CDN
    requires 1 <= result <= (if s.c.msgtype == STOPCCN then 7 else 11) && |text| <= NAME_MAX
    requires s1 == s.(c := s.c.(result := result, error := FixOrder(error), errormsg := CString(text)))
    ensures DoesAll([Codes(result, error, text)], s, s1)
  {
    CodesValue(result, error, text);
    var value := Be16(result) + Be16(error) + text;
    ResultCodeStores(s, value);
    hide Word, CString, Name, Be16, FixOrder, ResultCode;
    assert text == [] || |text| > 0;
    assert ResultCode(s, |value|, value) == Handled(s1, true);
    CodesRun(s, s1, value);
  }

  lemma CodesRun(s: Session, s1: Session, value: seq<byte>)
    requires |value| <= VALUE_MAX && Named(s.c.msgtype) && ResultCode(s, |value|, value) == Handled(s1, true)
    ensures DoesAll([Attr(true, 1, value)], s, s1)
  {
    hide ResultCode;
    DoesOne(Attr(true, 1, value), s, s1);
  }

  lemma ResultCodeStores(s: Session, value: seq<byte>)
    requires |value| >= 4 && (s.c.msgtype == STOPCCN || s.c.msgtype == CDN)
    requires 1 <= Word(value, 0) <= (if s.c.msgtype == STOPCCN then 7 else 11)
    ensures ResultCode(s, |value|, value) ==
              Handled(s.(c := s.c.(result := Word(value, 0), error := FixOrder(Word(value, 2)),
                                   errormsg := if |value| > 4 then Name(value[4..], |value| - 4) else [])), true)
  {
    hide Word, Name;
  }

  lemma CodesValue(result: u16, error: u16, text: seq<byte>)
    requires |text| <= NAME_MAX
    ensures var value := Be16(result) + Be16(error) + text;
            && |value| == 4 + |text| && Word(value, 0) == result && Word(value, 2) == error
            && value[4..] == text && Name(text, |text|) == CString(text) && CString([]) == []
  {
    assert text[..|text|] == text;
  }

  lemma ChallengeDoes(o: Opt<seq<byte>>, s: Session, s1: Session)
    requires IsSetup(s.c.msgtype) && (o.Some? ==> |o.value| <= VALUE_MAX)
    requires s1 == s.(t := s.t.(challenge := if o.Some? then Challenge(o.value) else s.t.challenge))
    ensures DoesAll(OptAttr(11, o), s, s1)
  {
    if o.Some? {
      assert o.value[..|o.value|] == o.value;
    }
    OptDoes(11, o, s, s1);
  }

  lemma ResponseDoes(o: Opt<seq<byte>>, s: Session, s1: Session)
    requires (s.c.msgtype == SCCRP || s.c.msgtype == SCCCN) && (o.Some? ==> |o.value| == SIG_SIZE)
    requires s1 == s.(t := s.t.(reply := if o.Some? then o.value else s.t.reply))
    ensures DoesAll(OptAttr(13, o), s, s1)
  {
    if o.Some? {
      assert o.value[..|o.value|] == o.value;
    }
    OptDoes(13, o, s, s1);
  }

  lemma BodyDoes(m: Message, s: Session)
    requires Sized(m)
    ensures DoesAll(Body(m), Opened(s, m), Learned(s, m))
  {
    var s1, s2 := Opened(s, m), Learned(s, m);
    match m
    case Sccrq(_, fc, bc, host, tid, rws, challenge) =>
      var sa := s1.(t := Introduced(s1.t, fc, bc, host, tid, rws, None));
      IntroductionDoes(fc, bc, host, tid, rws, s1, sa);
      ChallengeDoes(challenge, sa, s2);
      hide DoesAll;
      DoesBoth(Introduction(fc, bc, host, tid) + OptRws(rws), OptAttr(11, challenge), s1, sa, s2);
    case Sccrp(_, fc, bc, host, tid, rws, response, challenge) =>
      var sa := s1.(t := Introduced(s1.t, fc, bc, host, tid, rws, None));
      var sb := sa.(t := sa.t.(reply := if response.Some? then response.value else sa.t.reply));
      IntroductionDoes(fc, bc, host, tid, rws, s1, sa);
      ResponseDoes(response, sa, sb);
      ChallengeDoes(challenge, sb, s2);
      hide DoesAll;
      var intro := Introduction(fc, bc, host, tid) + OptRws(rws);
      DoesBoth(intro, OptAttr(13, response), s1, sa, sb);
      DoesBoth(intro + OptAttr(13, response), OptAttr(11, challenge), s1, sb, s2);
    case Scccn(_, response) => ResponseDoes(response, s1, s2);
    case Hello =>
    case _ => CallBodyDoes(m, s);
  }

  lemma CallBodyDoes(m: Message, s: Session)
    requires Sized(m) && (m.StopCcn? || m.Icrq? || m.Icrp? || m.Iccn? || m.Cdn?)
    ensures DoesAll(Body(m), Opened(s, m), Learned(s, m))
  {
    var s1, s2 := Opened(s, m), Learned(s, m);
    match m
    case StopCcn(_, tid, result, error, text) =>
      var sa := s1.(t := s1.t.(qtid := tid));
      WordDoes(9, tid, s1, sa);
      CodesDo(result, error, text, sa, s2);
      DoesBoth([Attr(true, 9, Be16(tid))], [Codes(result, error, text)], s1, sa, s2);
      assert Body(m) == [Attr(true, 9, Be16(tid))] + [Codes(result, error, text)];
    case Cdn(_, result, error, text, cid) =>
      var sa := s2.(c := s2.c.(qcid := s.c.qcid));
      CodesDo(result, error, text, s1, sa);
      WordDoes(14, cid, sa, s2);
      DoesBoth([Codes(result, error, text)], [Attr(true, 14, Be16(cid))], s1, sa, s2);
      assert Body(m) == [Codes(result, error, text)] + [Attr(true, 14, Be16(cid))];
    case Icrp(_, cid) => WordDoes(14, cid, s1, s2);
    case Icrq(_, cid, serno, bearer) =>
      var sa := s1.(calls := [FRESH_CALL.(cid := cid)] + s.calls);
      var sb := s1.(calls := [FRESH_CALL.(cid := cid, serno := serno)] + s.calls);
      WordDoes(14, cid, s1, sa);
      LongDoes(true, 15, serno, sa, sb);
      LongDoes(true, 18, bearer, sb, s2);
      DoesThree(Attr(true, 14, Be16(cid)), Attr(true, 15, Be32(serno)), Attr(true, 18, Be32(bearer)), s1, sa, sb, s2);
    case Iccn(_, txspeed, frame, rxspeed) =>
      var sa := s1.(c := s1.c.(txspeed := txspeed));
      var sb := sa.(c := sa.c.(frame := frame % 0x1_0000));
      LongDoes(true, 24, txspeed, s1, sa);
      LongDoes(true, 19, frame, sa, sb);
      LongDoes(false, 38, rxspeed, sb, s2);
      DoesThree(Attr(true, 24, Be32(txspeed)), Attr(true, 19, Be32(frame)), Attr(false, 38, Be32(rxspeed)),
                s1, sa, sb, s2);
  }

  lemma DoesThree(a: Attr, b: Attr, c: Attr, s: Session, sa: Session, sb: Session, sc: Session)
    requires DoesAll([a], s, sa) && DoesAll([b], sa, sb) && DoesAll([c], sb, sc)
    ensures DoesAll([a, b, c], s, sc)
  {
    hide DoesAll;
    DoesBoth([a], [b], s, sa, sb);
    DoesBoth([a] + [b], [c], s, sb, sc);
    assert [a] + [b] + [c] == [a, b, c];
  }

  /** Handlers of two-byte identifiers. */
  lemma WordDoes(attr: nat, x: u16, s: Session, s1: Session)
    requires attr == 9 || attr == 14
    requires attr == 9 ==> s.c.msgtype == STOPCCN && s1 == s.(t := s.t.(qtid := x))
    requires attr == 14 ==>
               || (s.c.msgtype == CDN && s1 == s.(c := s.c.(qcid := x)))
               || (s.c.msgtype == ICRP && s1 == s.WithCid(x))
               || (s.c.msgtype == ICRQ && s.calls != [] && s1 == s.WithHead(s.Head().(cid := x)))
    ensures DoesAll([Attr(true, attr, Be16(x))], s, s1)
  {
    WordOfBe16(x, 0);
    hide Word;
    assert Does(Attr(true, attr, Be16(x)), s, s1);
    DoesOne(Attr(true, attr, Be16(x)), s, s1);
  }

  /** Handlers of four-byte values. */
  lemma LongDoes(mandatory: bool, attr: nat, x: u32, s: Session, s1: Session)
    requires attr in {15, 18, 19, 24, 38}
    requires attr in {15, 18} ==> s.calls != []
    requires attr == 15 ==> s.c.msgtype == ICRQ && s1 == s.WithHead(s.Head().(serno := x))
    requires attr == 18 ==> s.c.msgtype == ICRQ && s1 == s.WithHead(s.Head().(bearer := x % 0x1_0000))
    requires attr == 19 ==> s.c.msgtype == ICCN && s1 == s.(c := s.c.(frame := x % 0x1_0000))
    requires attr == 24 ==> s.c.msgtype == ICCN && s1 == s.(c := s.c.(txspeed := x))
    requires attr == 38 ==> s.c.msgtype == ICCN && s1 == s.(c := s.c.(rxspeed := x))
    ensures DoesAll([Attr(mandatory, attr, Be32(x))], s, s1)
  {
    LongOfBe32(x);
    hide Word, Long, Be32;
    assert Does(Attr(mandatory, attr, Be32(x)), s, s1);
    DoesOne(Attr(mandatory, attr, Be32(x)), s, s1);
  }

  /** Every message of the daemon, built into a packet and parsed in a state that
      allows it, is accepted and tells the receiver exactly what the sender put in. */
  lemma MessageRoundTrip(m: Message, s: Session, pre: seq<byte>, post: seq<byte>, h: Hash, secret: seq<byte>)
    requires Sized(m) && StateAllows(s.(c := s.c.(msgtype := TypeOf(m))), TypeOf(m))
    ensures AllSendable(Attrs(m))
    ensures var body := WireAll(Attrs(m));
            var w := Walk(pre + body + post, |pre|, |body|, true, s, h, secret);
            w.ok && w.access.Fine? && w.s == Learned(s, m)
  {
    OpeningDoes(m, s);
    BodyDoes(m, s);
    DoesBoth([Attr(true, 0, Be16(TypeOf(m)))] + Vectors(m), Body(m), s, Opened(s, m), Learned(s, m));
    hide Body, Vectors, Walk, Run;
    WalkOfWire(pre, Attrs(m), post, true, s, h, secret);
  }

  /** A state in which `m` is awaited. */
  function Awaiting(s: Session, m: Message): Session {
    var state := if m.Sccrq? then 0 else if m.Sccrp? then SCCRQ else if m.Scccn? then SCCRP else SCCCN;
    var call := if m.Icrp? then ICRQ else ICRP;
    s.(t := s.t.(state := state), c := s.c.(isSelf := true, state := call))
  }

  lemma AttrsSendable(m: Message, s: Session)
    requires Sized(m)
    ensures AllSendable(Attrs(m))
  {
    var h: Hash := _ => [0, 0, 0, 0, 0, 0, 0, 0, 0, 0, 0, 0, 0, 0, 0, 0];
    MessageRoundTrip(m, Awaiting(s, m), [], [], h, []);
  }

  /** And in a state that does not allow it, it is refused with nothing learned but its type. */
  lemma UnallowedRefused(m: Message, s: Session, pre: seq<byte>, post: seq<byte>, h: Hash, secret: seq<byte>)
    requires Sized(m) && !StateAllows(s.(c := s.c.(msgtype := TypeOf(m))), TypeOf(m))
    ensures AllSendable(Attrs(m))
    ensures var body := WireAll(Attrs(m));
            var w := Walk(pre + body + post, |pre|, |body|, true, s, h, secret);
            !w.ok && w.access.Fine? && w.s == s.(c := s.c.(msgtype := TypeOf(m), needClose := true))
  {
    AttrsSendable(m, s);
    WordOfBe16(TypeOf(m), 0);
    var a := Attr(true, 0, Be16(TypeOf(m)));
    assert Run(s, 0, 2, a.value) == Handled(s.(c := s.c.(msgtype := TypeOf(m))), false);
    var s1 := s.(c := s.c.(msgtype := TypeOf(m), needClose := true));
    assert Attrs(m)[0] == a && Handle(a, s) == Done(s1, false, Fine);
    hide Attrs, Walk, Handle, StateAllows;
    WalkOfWire(pre, Attrs(m), post, true, s, h, secret);
  }
}
