/** Taking a control message apart: the loop that walks over the attributes of a
    packet, reveals hidden ones in place and runs their handlers (section 4.1 of
    RFC 2661). Every packet is allowed, well formed or not. */
module AvpParser {
  import opened Words
  import opened Splicing
  import opened HiddenAvp
  import opened AvpHandlers

  const ATTR_MAX := 39

  /** Bytes `start` to `start + length` of the buffer. */
  datatype Span = Span(start: nat, length: nat)

  /** What came of a packet: the rewritten buffer, the session, the attributes in the
      order they were skipped over, the spans handed to handlers, and what was accessed.
      Nothing is said of a packet after an access to what is not there. */
  datatype Parse = Parse(buf: seq<byte>, s: Session, ok: bool, tiles: seq<Span>, calls: seq<(nat, Span)>,
                         access: Access)

  /** The header words at `at` turned from network to host order. */
  function SwapHeader(buf: seq<byte>, at: nat): (r: seq<byte>)
    requires at + AVP_HDR <= |buf|
    ensures |r| == |buf|
  {
    Splice(buf, at, [buf[at + 1], buf[at], buf[at + 3], buf[at + 2], buf[at + 5], buf[at + 4]])
  }

  function Length(word: u16): nat { word % 0x400 }

  predicate Mandatory(word: u16) { word >= 0x8000 }

  predicate IsHidden(word: u16) { word / 0x4000 % 2 == 1 }

  predicate Reserved(word: u16) { word / 0x400 % 16 != 0 }

  /** What the header alone decides. */
  datatype Ruling = Reject(error: int) | Skip | Hidden | Plain

  function Rule(word: u16, attr: nat, len: nat, first: bool): Ruling {
    if attr > ATTR_MAX then
      if Mandatory(word) then Reject(VENDOR_ERROR) else Skip
    else if Length(word) > len then Reject(ERROR_LENGTH)
    else if attr != 0 && first then Reject(VENDOR_ERROR)
    else if Length(word) < AVP_HDR then Reject(ERROR_LENGTH)
    else if Reserved(word) then
      if Mandatory(word) then Reject(ERROR_RESERVED) else Skip
    else if IsHidden(word) then Hidden
    else Plain
  }

  lemma RuledLength(word: u16, attr: nat, len: nat, first: bool)
    requires Rule(word, attr, len, first) in {Hidden, Plain}
    ensures attr <= ATTR_MAX && AVP_HDR <= Length(word) <= len && word % 0x1000 == Length(word)
  {
  }

  /** What one attribute leads to: stop with an error, go on, or leave the buffer. */
  datatype Verdict = Verdict(s: Session, goOn: bool, calls: seq<(nat, Span)>, access: Access)

  function Leaves(s: Session): Verdict {
    Verdict(s, false, [], Past)
  }

  function Stops(s: Session, error: int): Verdict {
    Verdict(s.SetError(error), false, [], Fine)
  }

  function GoesOn(s: Session): Verdict {
    Verdict(s, true, [], Fine)
  }

  /** How many bytes of an attribute its handler looks at. Two handlers read a value before
      or without checking its length. */
  function Touched(attr: nat, msgtype: int, length: nat): (n: nat)
    ensures length <= n
  {
    if attr == 0 && length < 8 then 8
    else if attr == 15 && (msgtype == ICRQ || msgtype == OCRQ) && length < 10 then 10
    else length
  }

  /** Run the handler on the attribute whose host-order header stands at `at`. */
  function Dispatch(buf: seq<byte>, at: nat, word: u16, attr: nat, s: Session): Verdict
    requires at + AVP_HDR <= at + Length(word) <= |buf|
  {
    if !HasHandler(attr) then
      if Mandatory(word) then Stops(s, VENDOR_ERROR) else GoesOn(s)
    else if at + Touched(attr, s.c.msgtype, Length(word)) > |buf| then Leaves(s)
    else
      var n, call := Length(word) - AVP_HDR, (attr, Span(at, Length(word)));
      var access := AccessOf(s, attr, n);
      if access != Fine then Verdict(s, false, [call], access)
      else
        var r := Run(s, attr, n, buf[at + AVP_HDR..]);
        if !r.ok && Mandatory(word) then Verdict(r.s.(c := r.s.c.(needClose := true)), false, [call], Fine)
        else Verdict(r.s, true, [call], Fine)
  }

  datatype Stepped = Stepped(buf: seq<byte>, v: Verdict)

  lemma HostHeaderWord(s: seq<byte>, at: nat, word: u16, vendor: u16, attr: u16)
    requires at + AVP_HDR <= |s| && s[at..at + AVP_HDR] == HostHeader(word, vendor, attr)
    ensures GetLe(s, at) == word && GetLe(s, at + 4) == attr
  {
    assert s[at] == s[at..at + AVP_HDR][0] && s[at + 1] == s[at..at + AVP_HDR][1];
    assert s[at + 4] == s[at..at + AVP_HDR][4] && s[at + 5] == s[at..at + AVP_HDR][5];
  }

  lemma LengthUnderFlags(flags: nat, n: nat)
    requires flags < 16 && n < 0x400
    ensures Length(flags * 0x1000 + n) == n
    ensures Mandatory(flags * 0x1000 + n) <==> flags >= 8
  {
  }

  /** The revealed attribute has its own, shorter length. */
  lemma RevealedInside(buf: seq<byte>, at: nat, h: Hash, secret: seq<byte>, vector: Vector)
    requires HiddenInside(buf, at) && HostLength(buf, at) < 0x400 && RevealAt(buf, at, h, secret, vector).Revealed?
    ensures var r := Restored(buf, at, h, secret, vector);
            && |r| == |buf| && AVP_HDR <= Length(GetLe(r, at + 2)) <= HostLength(buf, at) - 2
            && GetLe(r, at + 4 + 2) == GetLe(buf, at + 4)
  {
    RestoredHoldsAvp(buf, at, h, secret, vector);
    RevealedFits(buf, at, h, secret, vector);
    var a := RevealAt(buf, at, h, secret, vector).avp;
    LengthUnderFlags(a.flags, AVP_HDR + |a.value|);
    hide *;
    HostHeaderWord(Restored(buf, at, h, secret, vector), at + 2, a.flags * 0x1000 + AVP_HDR + |a.value|,
                   a.vendor, a.attr);
  }

  /** A hidden attribute: revealed, if there is a vector to do it with, and handled. */
  ghost function HiddenStep(b: seq<byte>, at: nat, word: u16, attr: nat, s: Session, h: Hash,
                            secret: seq<byte>): (r: Stepped)
    requires at + AVP_HDR <= |b| && word == GetLe(b, at) && attr == GetLe(b, at + 4)
    requires AVP_HDR <= Length(word) && at + Length(word) <= |b| && word % 0x1000 == Length(word)
    ensures |r.buf| == |b|
  {
    var fail := if Mandatory(word) then Stops(s, VENDOR_ERROR) else GoesOn(s);
    if s.t.vector.NoVector? then Stepped(b, fail)
    else if at + 8 > |b| then Stepped(b, Leaves(s))
    else
      var b1 := Restored(b, at, h, secret, s.t.vector);
      if RevealAt(b, at, h, secret, s.t.vector).Revealed? then
        RevealedInside(b, at, h, secret, s.t.vector);
        Stepped(b1, Dispatch(b1, at + 2, GetLe(b1, at + 2), attr, s))
      else Stepped(b1, fail)
  }

  /** Handle the attribute at `at`, with `len` bytes of the packet left. */
  ghost function Step(buf: seq<byte>, at: nat, len: nat, first: bool, s: Session, h: Hash,
                      secret: seq<byte>): (r: Stepped)
    requires at + len <= |buf| && len > 0
    ensures |r.buf| == |buf|
  {
    if at + AVP_HDR > |buf| then Stepped(buf, Leaves(s))
    else
      var b := SwapHeader(buf, at);
      var word, attr := GetLe(b, at), GetLe(b, at + 4);
      match Rule(word, attr, len, first)
      case Reject(e) => Stepped(b, Stops(s, e))
      case Skip => Stepped(b, GoesOn(s))
      case Plain =>
        RuledLength(word, attr, len, first);
        Stepped(b, Dispatch(b, at, word, attr, s))
      case Hidden =>
        RuledLength(word, attr, len, first);
        HiddenStep(b, at, word, attr, s, h, secret)
  }

  /** The length the attribute at `at` claims on the wire. */
  function Claimed(buf: seq<byte>, at: nat): nat
    requires at + AVP_HDR <= |buf|
  {
    Length(Get16(buf, at))
  }

  lemma GoOnInside(buf: seq<byte>, at: nat, len: nat, first: bool, s: Session, h: Hash, secret: seq<byte>)
    requires at + len <= |buf| && len > 0
    ensures Step(buf, at, len, first, s, h, secret).v.goOn ==>
              Step(buf, at, len, first, s, h, secret).v.access.Fine? && at + AVP_HDR <= |buf|
  {
    hide Run, Restored, RevealAt, SwapHeader;
  }

  /** Walk over the rest of the packet. */
  ghost function Walk(buf: seq<byte>, at: nat, len: int, first: bool, s: Session, h: Hash, secret: seq<byte>): Parse
    requires len > 0 ==> at + len <= |buf|
    decreases len
  {
    if len <= 0 then Parse(buf, s, len == 0, [], [], Fine)
    else
      var r := Step(buf, at, len, first, s, h, secret);
      GoOnInside(buf, at, len, first, s, h, secret);
      if !r.v.goOn || Claimed(buf, at) == 0 then Parse(r.buf, r.v.s, false, [], r.v.calls, r.v.access)
      else
        var n := Claimed(buf, at);
        var rest := Walk(r.buf, at + n, len - n, false, r.v.s, h, secret);
        rest.(tiles := [Span(at, n)] + rest.tiles, calls := r.v.calls + rest.calls)
  }

  lemma SwappedWords(buf: seq<byte>, at: nat)
    requires at + AVP_HDR <= |buf|
    ensures var b := SwapHeader(buf, at);
            && GetLe(b, at) == Get16(buf, at) && GetLe(b, at + 2) == Get16(buf, at + 2)
            && GetLe(b, at + 4) == Get16(buf, at + 4)
  {
  }

  // ----- what every packet guarantees -----

  /** The spans follow each other without gap or overlap from `from` to `to`. */
  predicate Tiling(tiles: seq<Span>, from: nat, to: nat) {
    if tiles == [] then from == to
    else tiles[0].start == from && tiles[0].length > 0 && Tiling(tiles[1..], from + tiles[0].length, to)
  }

  /** Every handler got an attribute with a full header inside bytes `from` to `to`. */
  predicate AllInside(calls: seq<(nat, Span)>, from: nat, to: int) {
    forall c <- calls :: HasHandler(c.0) && from <= c.1.start && AVP_HDR <= c.1.length && c.1.start + c.1.length <= to
  }

  predicate HandledType(calls: seq<(nat, Span)>) {
    exists c <- calls :: c.0 == 0
  }

  lemma DispatchCalls(buf: seq<byte>, at: nat, word: u16, attr: nat, s: Session, from: nat, to: nat)
    requires at + AVP_HDR <= at + Length(word) <= |buf| && from <= at && at + Length(word) <= to
    ensures var v := Dispatch(buf, at, word, attr, s);
            AllInside(v.calls, from, to) && (v.s.c.msgtype != s.c.msgtype ==> HandledType(v.calls))
  {
    if HasHandler(attr) && attr == 0 {
      var v := Dispatch(buf, at, word, attr, s);
      assert v.access.Fine? ==> v.calls[0].0 == 0;
    } else if HasHandler(attr) {
      OnlyTypeSetsType(s, attr, Length(word) - AVP_HDR, buf[at + AVP_HDR..]);
    }
  }

  lemma OnlyTypeSetsType(s: Session, attr: nat, n: nat, data: seq<byte>)
    requires HasHandler(attr) && attr != 0 && n <= |data|
    ensures Run(s, attr, n, data).s.c.msgtype == s.c.msgtype
  {
    hide Run;
    RunFrame(s, attr, n, data);
  }

  lemma StepCalls(buf: seq<byte>, at: nat, len: nat, first: bool, s: Session, h: Hash, secret: seq<byte>)
    requires at + len <= |buf| && len > 0
    ensures var r := Step(buf, at, len, first, s, h, secret);
            AllInside(r.v.calls, at, at + len) && (r.v.s.c.msgtype != s.c.msgtype ==> HandledType(r.v.calls))
  {
    if at + AVP_HDR <= |buf| {
      var b := SwapHeader(buf, at);
      var word, attr := GetLe(b, at), GetLe(b, at + 4);
      match Rule(word, attr, len, first)
      case Plain =>
        RuledLength(word, attr, len, first);
        DispatchCalls(b, at, word, attr, s, at, at + len);
      case Hidden =>
        RuledLength(word, attr, len, first);
        if s.t.vector.Vector? && at + 8 <= |b| && RevealAt(b, at, h, secret, s.t.vector).Revealed? {
          RevealedInside(b, at, h, secret, s.t.vector);
          var b1 := Restored(b, at, h, secret, s.t.vector);
          DispatchCalls(b1, at + 2, GetLe(b1, at + 2), attr, s, at, at + len);
        }
      case _ =>
    }
  }

  /** For every packet whatsoever: if it is accepted, its attributes tile the body
      exactly, hidden ones at their original length; every handler call stays inside the
      packet; and the message type changes only if a Message Type was handled. */
  lemma {:induction false} WalkIsSafe(buf: seq<byte>, at: nat, len: int, first: bool, s: Session, h: Hash,
                                      secret: seq<byte>)
    requires len > 0 ==> at + len <= |buf|
    ensures var p := Walk(buf, at, len, first, s, h, secret);
            && (p.ok ==> p.access.Fine? && len >= 0 && Tiling(p.tiles, at, at + len))
            && AllInside(p.calls, at, at + len)
            && (p.s.c.msgtype != s.c.msgtype ==> HandledType(p.calls))
    decreases len
  {
    hide Step, Claimed, AllInside, HandledType;
    if len > 0 {
      var r := Step(buf, at, len, first, s, h, secret);
      StepCalls(buf, at, len, first, s, h, secret);
      GoOnInside(buf, at, len, first, s, h, secret);
      if r.v.goOn && Claimed(buf, at) != 0 {
        var n := Claimed(buf, at);
        WalkIsSafe(r.buf, at + n, len - n, false, r.v.s, h, secret);
        var rest := Walk(r.buf, at + n, len - n, false, r.v.s, h, secret);
        CallsConcat(r.v.calls, rest.calls, at, at + n, at + len);
        TilingStep(at, n, rest.tiles, len - n);
      }
    } else {
      NoCalls(at, at + len);
    }
  }

  lemma NoCalls(from: nat, to: int)
    ensures AllInside([], from, to)
  {
  }

  lemma TilingStep(at: nat, n: nat, tiles: seq<Span>, len: int)
    requires n > 0
    ensures len >= 0 && Tiling(tiles, at + n, at + n + len) ==> Tiling([Span(at, n)] + tiles, at, at + n + len)
  {
    assert ([Span(at, n)] + tiles)[1..] == tiles;
  }

  lemma CallsConcat(a: seq<(nat, Span)>, b: seq<(nat, Span)>, from: nat, mid: nat, to: int)
    requires AllInside(a, from, to) && AllInside(b, mid, to) && from <= mid
    ensures AllInside(a + b, from, to)
    ensures HandledType(a) || HandledType(b) ==> HandledType(a + b)
  {
    if HandledType(a) {
      var c :| c in a && c.0 == 0;
      assert c in a + b;
    } else if HandledType(b) {
      var c :| c in b && c.0 == 0;
      assert c in a + b;
    }
  }

  // ----- the loop over the packet buffer -----

  method SwapHeaderInPlace(buf: array<byte>, at: nat)
    requires at + AVP_HDR <= buf.Length
    modifies buf
    ensures buf[..] == SwapHeader(old(buf[..]), at)
  {
    buf[at], buf[at + 1] := buf[at + 1], buf[at];
    buf[at + 2], buf[at + 3] := buf[at + 3], buf[at + 2];
    buf[at + 4], buf[at + 5] := buf[at + 5], buf[at + 4];
  }

  /** Handle one attribute in place; `n` is the number of bytes it takes up. */
  method StepInPlace(buf: array<byte>, at: nat, len: nat, first: bool, s: Session, h: Hash, secret: seq<byte>)
    returns (v: Verdict, n: nat)
    requires at + len <= buf.Length && len > 0
    modifies buf
    ensures Stepped(buf[..], v) == Step(old(buf[..]), at, len, first, s, h, secret)
    ensures v.goOn ==> at + AVP_HDR <= buf.Length && n == Claimed(old(buf[..]), at)
  {
    if at + AVP_HDR > buf.Length {
      return Leaves(s), 0;
    }
    SwappedWords(buf[..], at);
    hide SwapHeader, GetLe, Get16, Dispatch, HiddenStep;
    SwapHeaderInPlace(buf, at);
    var word, attr := GetLe(buf[..], at), GetLe(buf[..], at + 4);
    n := Length(word);
    match Rule(word, attr, len, first) {
      case Reject(e) => v := Stops(s, e);
      case Skip => v := GoesOn(s);
      case Plain =>
        RuledLength(word, attr, len, first);
        v := Dispatch(buf[..], at, word, attr, s);
      case Hidden =>
        RuledLength(word, attr, len, first);
        v := HiddenInPlace(buf, at, word, attr, s, h, secret);
    }
  }

  method HiddenInPlace(buf: array<byte>, at: nat, word: u16, attr: nat, s: Session, h: Hash, secret: seq<byte>)
    returns (v: Verdict)
    requires at + AVP_HDR <= buf.Length && word == GetLe(buf[..], at) && attr == GetLe(buf[..], at + 4)
    requires AVP_HDR <= Length(word) && at + Length(word) <= buf.Length && word % 0x1000 == Length(word)
    modifies buf
    ensures Stepped(buf[..], v) == HiddenStep(old(buf[..]), at, word, attr, s, h, secret)
  {
    if s.t.vector.Vector? {
      if at + 8 > buf.Length {
        return Leaves(s);
      }
      ghost var b := buf[..];
      hide Dispatch, Restored, RevealAt;
      var ok := DecryptAvp(buf, at, h, secret, s.t.vector);
      if ok {
        RevealedInside(b, at, h, secret, s.t.vector);
        v := Dispatch(buf[..], at + 2, GetLe(buf[..], at + 2), attr, s);
        return;
      }
    }
    v := if Mandatory(word) then Stops(s, VENDOR_ERROR) else GoesOn(s);
  }

  /** The walk of the rest gives the same final buffer, session and answer. */
  ghost predicate SameOutcome(p: Parse, q: Parse) {
    p.buf == q.buf && p.s == q.s && p.ok == q.ok && p.access == q.access
  }

  lemma WalkUnfolds(buf: seq<byte>, at: nat, len: int, first: bool, s: Session, h: Hash, secret: seq<byte>)
    requires len > 0 ==> at + len <= |buf|
    ensures var w := Walk(buf, at, len, first, s, h, secret);
            if len <= 0 then SameOutcome(w, Parse(buf, s, len == 0, [], [], Fine))
            else
              var r := Step(buf, at, len, first, s, h, secret);
              && (r.v.goOn ==> at + AVP_HDR <= |buf|)
              && if !r.v.goOn || Claimed(buf, at) == 0 then
                   SameOutcome(w, Parse(r.buf, r.v.s, false, [], [], r.v.access))
                 else
                   var n := Claimed(buf, at);
                   SameOutcome(w, Walk(r.buf, at + n, len - n, false, r.v.s, h, secret))
  {
    hide Step, Claimed;
    if len > 0 {
      GoOnInside(buf, at, len, first, s, h, secret);
    }
  }

  /** Handle all attributes of the packet body that starts at `start`. */
  method HandleAvps(buf: array<byte>, start: nat, bodyLen: nat, session: Session, h: Hash, secret: seq<byte>)
    returns (s: Session, ok: bool, access: Access)
    requires start + bodyLen <= buf.Length
    modifies buf
    ensures SameOutcome(Parse(buf[..], s, ok, [], [], access),
                        Walk(old(buf[..]), start, bodyLen, true, session, h, secret))
  {
    hide Walk, Step, Claimed;
    ghost var whole := Walk(buf[..], start, bodyLen, true, session, h, secret);
    var at: nat, len: int, first := start, bodyLen, true;
    s := session;
    while len > 0
      invariant len > 0 ==> at + len <= buf.Length
      invariant SameOutcome(Walk(buf[..], at, len, first, s, h, secret), whole)
      decreases len
    {
      WalkUnfolds(buf[..], at, len, first, s, h, secret);
      var v, n := StepInPlace(buf, at, len, first, s, h, secret);
      s := v.s;
      if !v.goOn || n == 0 {
        return s, false, v.access;
      }
      at, len, first := at + n, len - n, false;
    }
    WalkUnfolds(buf[..], at, len, first, s, h, secret);
    return s, len == 0, Fine;
  }

  // ----- when every access is fine -----

  /** What one attribute can touch behind the packet. */
  const OVERREACH := 5

  lemma DispatchStaysInside(buf: seq<byte>, at: nat, word: u16, attr: nat, s: Session)
    requires at + AVP_HDR <= at + Length(word) <= |buf| && at + 10 <= |buf|
    ensures Dispatch(buf, at, word, attr, s).access != Past
  {
    hide Run;
  }

  lemma HiddenStaysInside(b: seq<byte>, at: nat, word: u16, attr: nat, s: Session, h: Hash, secret: seq<byte>)
    requires at + AVP_HDR <= |b| && word == GetLe(b, at) && attr == GetLe(b, at + 4)
    requires AVP_HDR <= Length(word) && at + Length(word) + OVERREACH <= |b| && word % 0x1000 == Length(word)
    ensures HiddenStep(b, at, word, attr, s, h, secret).v.access != Past
  {
    if s.t.vector.Vector? && RevealAt(b, at, h, secret, s.t.vector).Revealed? {
      RevealedInside(b, at, h, secret, s.t.vector);
      var b1 := Restored(b, at, h, secret, s.t.vector);
      hide Restored, RevealAt, Dispatch;
      DispatchStaysInside(b1, at + 2, GetLe(b1, at + 2), attr, s);
    }
  }

  lemma StepStaysInside(buf: seq<byte>, at: nat, len: nat, first: bool, s: Session, h: Hash, secret: seq<byte>)
    requires at + len + OVERREACH <= |buf| && len > 0
    ensures Step(buf, at, len, first, s, h, secret).v.access != Past
  {
    var b := SwapHeader(buf, at);
    var word, attr := GetLe(b, at), GetLe(b, at + 4);
    hide SwapHeader, GetLe, Dispatch, HiddenStep;
    match Rule(word, attr, len, first)
    case Plain =>
      RuledLength(word, attr, len, first);
      DispatchStaysInside(b, at, word, attr, s);
    case Hidden =>
      RuledLength(word, attr, len, first);
      HiddenStaysInside(b, at, word, attr, s, h, secret);
    case _ =>
  }

  lemma {:induction false} WalkStaysInside(buf: seq<byte>, at: nat, len: int, first: bool, s: Session, h: Hash,
                                           secret: seq<byte>)
    requires len > 0 ==> at + len + OVERREACH <= |buf|
    ensures Walk(buf, at, len, first, s, h, secret).access != Past
    decreases len
  {
    hide Walk, Step, Claimed;
    WalkUnfolds(buf, at, len, first, s, h, secret);
    if len > 0 {
      StepStaysInside(buf, at, len, first, s, h, secret);
      var r := Step(buf, at, len, first, s, h, secret);
      if r.v.goOn && Claimed(buf, at) != 0 {
        var n := Claimed(buf, at);
        WalkStaysInside(r.buf, at + n, len - n, false, r.v.s, h, secret);
      }
    }
  }

  /** A list that is not empty stays so, and there is always somewhere to write to. */
  lemma RunKeepsCalls(s: Session, attr: nat, n: nat, data: seq<byte>)
    requires HasHandler(attr) && n <= |data|
    ensures s.calls != [] ==> Run(s, attr, n, data).s.calls != []
  {
    hide Run, MessageType;
    if attr == 0 {
      TypeFrame(s, n, data);
      assert Run(s, attr, n, data) == MessageType(s, n, data) by { RunOfType(s, n, data); }
    } else {
      RunFrame(s, attr, n, data);
    }
  }

  lemma RunOfType(s: Session, n: nat, data: seq<byte>)
    requires n <= |data|
    ensures Run(s, 0, n, data) == MessageType(s, n, data)
  {
  }

  lemma DispatchKeepsCalls(buf: seq<byte>, at: nat, word: u16, attr: nat, s: Session)
    requires at + AVP_HDR <= at + Length(word) <= |buf|
    ensures var v := Dispatch(buf, at, word, attr, s); s.calls != [] ==> v.s.calls != [] && v.access != Null
  {
    if HasHandler(attr) {
      RunKeepsCalls(s, attr, Length(word) - AVP_HDR, buf[at + AVP_HDR..]);
    }
    hide Run;
  }

  lemma StepKeepsCalls(buf: seq<byte>, at: nat, len: nat, first: bool, s: Session, h: Hash, secret: seq<byte>)
    requires at + len <= |buf| && len > 0
    ensures var v := Step(buf, at, len, first, s, h, secret).v; s.calls != [] ==> v.s.calls != [] && v.access != Null
  {
    if at + AVP_HDR <= |buf| {
      var b := SwapHeader(buf, at);
      var word, attr := GetLe(b, at), GetLe(b, at + 4);
      hide SwapHeader, GetLe, Dispatch, Restored, RevealAt;
      match Rule(word, attr, len, first)
      case Plain =>
        RuledLength(word, attr, len, first);
        DispatchKeepsCalls(b, at, word, attr, s);
      case Hidden =>
        RuledLength(word, attr, len, first);
        if s.t.vector.Vector? && at + 8 <= |b| && RevealAt(b, at, h, secret, s.t.vector).Revealed? {
          RevealedInside(b, at, h, secret, s.t.vector);
          var b1 := Restored(b, at, h, secret, s.t.vector);
          DispatchKeepsCalls(b1, at + 2, GetLe(b1, at + 2), attr, s);
        }
      case _ =>
    }
  }

  /** With a call on the list no access is to one that is not there. */
  lemma {:induction false} WalkFindsCall(buf: seq<byte>, at: nat, len: int, first: bool, s: Session, h: Hash,
                                         secret: seq<byte>)
    requires (len > 0 ==> at + len <= |buf|) && s.calls != []
    ensures Walk(buf, at, len, first, s, h, secret).access != Null
    decreases len
  {
    hide Walk, Step, Claimed;
    WalkUnfolds(buf, at, len, first, s, h, secret);
    if len > 0 {
      StepKeepsCalls(buf, at, len, first, s, h, secret);
      var r := Step(buf, at, len, first, s, h, secret);
      if r.v.goOn && Claimed(buf, at) != 0 {
        var n := Claimed(buf, at);
        WalkFindsCall(r.buf, at + n, len - n, false, r.v.s, h, secret);
      }
    }
  }

  // ----- bodies too short to miss anything -----

  /** Nothing but the buffer was accessed. */
  predicate Local(access: Access) {
    access in {Fine, Past}
  }

  lemma StepTooShort(buf: seq<byte>, at: nat, len: nat, first: bool, s: Session, h: Hash, secret: seq<byte>)
    requires at + len <= |buf| && 0 < len < AVP_HDR
    ensures Local(Step(buf, at, len, first, s, h, secret).v.access)
  {
    hide Dispatch, HiddenStep, SwapHeader, GetLe;
  }

  lemma {:induction false} TooShort(buf: seq<byte>, at: nat, len: int, first: bool, s: Session, h: Hash,
                                    secret: seq<byte>)
    requires (len > 0 ==> at + len <= |buf|) && len < AVP_HDR
    ensures Local(Walk(buf, at, len, first, s, h, secret).access)
    decreases len
  {
    hide Walk, Step, Claimed;
    WalkUnfolds(buf, at, len, first, s, h, secret);
    if len > 0 {
      StepTooShort(buf, at, len, first, s, h, secret);
      var r := Step(buf, at, len, first, s, h, secret);
      if r.v.goOn && Claimed(buf, at) != 0 {
        var n := Claimed(buf, at);
        TooShort(r.buf, at + n, len - n, false, r.v.s, h, secret);
      }
    }
  }

  lemma DispatchOfType(b: seq<byte>, at: nat, word: u16, s: Session)
    requires at + AVP_HDR <= at + Length(word) <= |b|
    ensures Local(Dispatch(b, at, word, 0, s).access)
  {
    hide Run;
  }

  /** The first attribute is a Message Type, if its handler is run at all. */
  lemma FirstIsLocal(buf: seq<byte>, at: nat, len: nat, s: Session, h: Hash, secret: seq<byte>)
    requires at + len <= |buf| && len > 0
    ensures Local(Step(buf, at, len, true, s, h, secret).v.access)
  {
    if at + AVP_HDR <= |buf| {
      var b := SwapHeader(buf, at);
      var word, attr := GetLe(b, at), GetLe(b, at + 4);
      hide SwapHeader, GetLe, Dispatch, Restored, RevealAt;
      match Rule(word, attr, len, true)
      case Plain =>
        RuledLength(word, attr, len, true);
        DispatchOfType(b, at, word, s);
      case Hidden =>
        RuledLength(word, attr, len, true);
        if s.t.vector.Vector? && at + 8 <= |b| && RevealAt(b, at, h, secret, s.t.vector).Revealed? {
          RevealedInside(b, at, h, secret, s.t.vector);
          var b1 := Restored(b, at, h, secret, s.t.vector);
          DispatchOfType(b1, at + 2, GetLe(b1, at + 2), s);
        }
      case _ =>
    }
  }

  /** Six bytes hold one header: that of the first attribute. */
  lemma ShortIsLocal(buf: seq<byte>, at: nat, len: nat, s: Session, h: Hash, secret: seq<byte>)
    requires at + len <= |buf| && len < SHORTEST_NAMELESS
    ensures Local(Walk(buf, at, len, true, s, h, secret).access)
  {
    hide Walk, Step, Claimed;
    WalkUnfolds(buf, at, len, true, s, h, secret);
    if len > 0 {
      FirstIsLocal(buf, at, len, s, h, secret);
      var r := Step(buf, at, len, true, s, h, secret);
      if r.v.goOn && Claimed(buf, at) != 0 {
        var n := Claimed(buf, at);
        TooShort(r.buf, at + n, len - n, false, r.v.s, h, secret);
      }
    }
  }

  // ----- bodies too short to miss a call -----

  /** A Message Type without a value takes the length word of the next attribute for one. */
  predicate TypeIsNextWord(r: Stepped, next: nat) {
    next + 2 <= |r.buf| && r.v.s.c.msgtype == Get16(r.buf, next)
  }

  lemma DispatchUntyped(b: seq<byte>, at: nat, word: u16, attr: nat, s: Session)
    requires at + AVP_HDR <= at + Length(word) <= |b| && s.c.msgtype == -1
    ensures var v := Dispatch(b, at, word, attr, s);
            && v.access != Null
            && (v.goOn && Length(word) == AVP_HDR ==>
                  v.s.c.msgtype == -1 || TypeIsNextWord(Stepped(b, v), at + AVP_HDR))
  {
    if HasHandler(attr) && attr != 0 {
      OnlyTypeSetsType(s, attr, Length(word) - AVP_HDR, b[at + AVP_HDR..]);
      hide Run;
    }
  }

  lemma StepUntyped(buf: seq<byte>, at: nat, len: nat, first: bool, s: Session, h: Hash, secret: seq<byte>)
    requires at + len <= |buf| && len > 0 && s.c.msgtype == -1
    ensures var r := Step(buf, at, len, first, s, h, secret);
            && r.v.access != Null
            && (r.v.goOn ==>
                  && at + AVP_HDR <= |buf|
                  && (r.v.s.c.msgtype != -1 ==> Claimed(buf, at) >= AVP_HDR)
                  && (r.v.s.c.msgtype != -1 && Claimed(buf, at) == AVP_HDR ==> TypeIsNextWord(r, at + AVP_HDR)))
  {
    GoOnInside(buf, at, len, first, s, h, secret);
    if at + AVP_HDR <= |buf| {
      var b := SwapHeader(buf, at);
      var word, attr := GetLe(b, at), GetLe(b, at + 4);
      SwappedWords(buf, at);
      hide SwapHeader, GetLe, Get16, Dispatch, Restored, RevealAt;
      match Rule(word, attr, len, first)
      case Plain =>
        RuledLength(word, attr, len, first);
        DispatchUntyped(b, at, word, attr, s);
      case Hidden =>
        RuledLength(word, attr, len, first);
        if s.t.vector.Vector? && at + 8 <= |b| && RevealAt(b, at, h, secret, s.t.vector).Revealed? {
          RevealedInside(b, at, h, secret, s.t.vector);
          var b1 := Restored(b, at, h, secret, s.t.vector);
          DispatchUntyped(b1, at + 2, GetLe(b1, at + 2), attr, s);
        }
      case _ =>
    }
  }

  /** Six bytes behind it leave room for a header, and its length is then no message type
      that asks for a call. */
  lemma StepSixLeft(buf: seq<byte>, at: nat, s: Session, h: Hash, secret: seq<byte>)
    requires at + AVP_HDR <= |buf| && s.c.msgtype == Get16(buf, at)
    ensures Step(buf, at, AVP_HDR, false, s, h, secret).v.access != Null
  {
    var b := SwapHeader(buf, at);
    var word, attr := GetLe(b, at), GetLe(b, at + 4);
    SwappedWords(buf, at);
    hide SwapHeader, GetLe, Get16, Run, Restored, RevealAt;
    match Rule(word, attr, AVP_HDR, false)
    case Plain => RuledLength(word, attr, AVP_HDR, false);
    case Hidden =>
      RuledLength(word, attr, AVP_HDR, false);
      if s.t.vector.Vector? && at + 8 <= |b| && RevealAt(b, at, h, secret, s.t.vector).Revealed? {
        RevealedInside(b, at, h, secret, s.t.vector);
      }
    case _ =>
  }

  lemma SixLeft(buf: seq<byte>, at: nat, s: Session, h: Hash, secret: seq<byte>)
    requires at + AVP_HDR <= |buf| && s.c.msgtype == Get16(buf, at)
    ensures Walk(buf, at, AVP_HDR, false, s, h, secret).access != Null
  {
    hide Walk, Step, Claimed, Get16;
    WalkUnfolds(buf, at, AVP_HDR, false, s, h, secret);
    StepSixLeft(buf, at, s, h, secret);
    var r := Step(buf, at, AVP_HDR, false, s, h, secret);
    if r.v.goOn && Claimed(buf, at) != 0 {
      TooShort(r.buf, at + Claimed(buf, at), AVP_HDR - Claimed(buf, at), false, r.v.s, h, secret);
    }
  }

  /** Up to twelve bytes hold no Message Type and behind it an attribute that asks for a call. */
  lemma {:induction false} ShortFindsNone(buf: seq<byte>, at: nat, len: int, first: bool, s: Session, h: Hash,
                                          secret: seq<byte>)
    requires (len > 0 ==> at + len <= |buf|) && len < SHORTEST_HEADLESS && s.c.msgtype == -1
    ensures Walk(buf, at, len, first, s, h, secret).access != Null
    decreases len
  {
    hide Walk, Step, Claimed, Get16;
    WalkUnfolds(buf, at, len, first, s, h, secret);
    if len > 0 {
      StepUntyped(buf, at, len, first, s, h, secret);
      var r := Step(buf, at, len, first, s, h, secret);
      if r.v.goOn && Claimed(buf, at) != 0 {
        var n := Claimed(buf, at);
        if r.v.s.c.msgtype == -1 {
          ShortFindsNone(r.buf, at + n, len - n, false, r.v.s, h, secret);
        } else if len - n < AVP_HDR {
          TooShort(r.buf, at + n, len - n, false, r.v.s, h, secret);
        } else {
          SixLeft(r.buf, at + n, r.v.s, h, secret);
        }
      }
    }
  }

  // ----- bodies that leave the buffer -----

  /** An optional attribute that nobody knows, of `n` bytes. */
  function Unknown(n: nat): (r: seq<byte>)
    requires n < 0x400
    ensures |r| == AVP_HDR
  {
    WireHeader(n, 0, ATTR_MAX + 1)
  }

  function Zeros(n: nat): (r: seq<byte>)
    ensures |r| == n
  {
    seq(n, i => 0)
  }

  /** A body of `len` bytes, and `room` more, of unknown attributes up to its last byte. */
  function Filler(len: nat, room: nat): (r: seq<byte>)
    requires len > 0
    ensures |r| == len + room
  {
    if len + room < AVP_HDR then Zeros(len + room)
    else if len <= 0x400 then Unknown(len - 1) + Zeros(len + room - AVP_HDR)
    else Unknown(0x3FF) + Zeros(0x3FF - AVP_HDR) + Filler(len - 0x3FF, room)
  }

  /** An unknown optional attribute is skipped, whatever came before. */
  lemma UnknownSkips(pre: seq<byte>, n: nat, rest: seq<byte>, len: nat, first: bool, s: Session, h: Hash,
                     secret: seq<byte>)
    requires n < 0x400 && 0 < len && |pre| + len <= |pre + Unknown(n) + rest|
    ensures var buf, at := pre + Unknown(n) + rest, |pre|;
            var r := Step(buf, at, len, first, s, h, secret);
            && r.v == GoesOn(s) && Claimed(buf, at) == n && r.buf == SwapHeader(buf, at)
  {
    var buf, at := pre + Unknown(n) + rest, |pre|;
    assert buf[at..at + 6] == Unknown(n);
    assert forall k :: 0 <= k < 6 ==> buf[at..at + 6][k] == Unknown(n)[k];
    assert buf[at] == Unknown(n)[0] && buf[at + 1] == Unknown(n)[1];
    assert buf[at + 4] == Unknown(n)[4] && buf[at + 5] == Unknown(n)[5];
    assert Get16(buf, at) == n && Get16(buf, at + 4) == ATTR_MAX + 1;
    SwappedWords(buf, at);
    hide SwapHeader, Unknown;
  }

  lemma SwapKeepsBehind(buf: seq<byte>, at: nat, from: nat)
    requires at + AVP_HDR <= from <= |buf|
    ensures SwapHeader(buf, at)[from..] == buf[from..] && |SwapHeader(buf, at)| == |buf|
  {
  }

  /** A header that the buffer does not hold. */
  lemma HeaderLeaves(buf: seq<byte>, at: nat, len: nat, first: bool, s: Session, h: Hash, secret: seq<byte>)
    requires 0 < len && at + len <= |buf| < at + AVP_HDR
    ensures Walk(buf, at, len, first, s, h, secret).access == Past
  {
  }

  lemma SkipLeaves(pre: seq<byte>, n: nat, rest: seq<byte>, len: nat, first: bool, s: Session, h: Hash,
                   secret: seq<byte>)
    requires 0 < n < 0x400 && n < len && |pre| + len <= |pre + Unknown(n) + rest|
    requires Walk(SwapHeader(pre + Unknown(n) + rest, |pre|), |pre| + n, len - n, false, s, h, secret).access == Past
    ensures Walk(pre + Unknown(n) + rest, |pre|, len, first, s, h, secret).access == Past
  {
    hide Step, SwapHeader, Walk, Unknown, Claimed;
    UnknownSkips(pre, n, rest, len, first, s, h, secret);
    WalkUnfolds(pre + Unknown(n) + rest, |pre|, len, first, s, h, secret);
  }

  lemma ShortFillerLeaves(pre: seq<byte>, len: nat, room: nat, first: bool, s: Session, h: Hash, secret: seq<byte>)
    requires 1 < len <= 0x400 && room < OVERREACH && len + room >= AVP_HDR
    ensures Walk(pre + Filler(len, room), |pre|, len, first, s, h, secret).access == Past
  {
    hide SwapHeader, Walk, Unknown;
    var n, rest := len - 1, Zeros(len + room - AVP_HDR);
    assert pre + Filler(len, room) == pre + Unknown(n) + rest;
    hide Filler;
    HeaderLeaves(SwapHeader(pre + Unknown(n) + rest, |pre|), |pre| + n, 1, false, s, h, secret);
    SkipLeaves(pre, n, rest, len, first, s, h, secret);
  }

  lemma BehindFiller(pre: seq<byte>, pad: seq<byte>, tail: seq<byte>)
    requires |pad| == 0x3FF - AVP_HDR
    ensures var buf := pre + Unknown(0x3FF) + (pad + tail);
            var b := SwapHeader(buf, |pre|);
            |b| == |buf| && b == b[..|pre| + 0x3FF] + tail
  {
    var buf := pre + Unknown(0x3FF) + (pad + tail);
    SwapKeepsBehind(buf, |pre|, |pre| + 0x3FF);
    hide SwapHeader, Unknown;
    assert buf[|pre| + 0x3FF..] == tail;
    var b := SwapHeader(buf, |pre|);
    assert b == b[..|pre| + 0x3FF] + b[|pre| + 0x3FF..];
  }

  lemma {:induction false} FillerLeaves(pre: seq<byte>, len: nat, room: nat, first: bool, s: Session, h: Hash,
                                        secret: seq<byte>)
    requires len > 0 && room < OVERREACH
    ensures Walk(pre + Filler(len, room), |pre|, len, first, s, h, secret).access == Past
    decreases len
  {
    hide Walk, SwapHeader, Unknown;
    if len + room < AVP_HDR || len == 1 {
      HeaderLeaves(pre + Filler(len, room), |pre|, len, first, s, h, secret);
    } else if len <= 0x400 {
      ShortFillerLeaves(pre, len, room, first, s, h, secret);
    } else {
      var n, pad, tail := 0x3FF, Zeros(0x3FF - AVP_HDR), Filler(len - 0x3FF, room);
      assert pre + Filler(len, room) == pre + Unknown(n) + (pad + tail);
      BehindFiller(pre, pad, tail);
      var b := SwapHeader(pre + Unknown(n) + (pad + tail), |pre|);
      hide *;
      FillerLeaves(b[..|pre| + n], len - n, room, false, s, h, secret);
      SkipLeaves(pre, n, pad + tail, len, first, s, h, secret);
    }
  }

  // ----- a body that asks for a call -----

  const SHORTEST_HEADLESS := 13

  /** A Message Type with no value, not mandatory, and one whose header has been swapped. */
  const EMPTY_TYPE: seq<byte> := [0, 6, 0, 0, 0, 0]
  const EMPTY_SWAPPED: seq<byte> := [6, 0, 0, 0, 0, 0]

  /** A Dialed Number of one byte. */
  const HEADLESS: seq<byte> := [0, 7, 0, 0, 0, 21, 0]

  /** What is behind the empty Message Type is taken for its value. */
  lemma EmptyTypeFirst(rest: seq<byte>, len: nat, s: Session, h: Hash, secret: seq<byte>)
    requires |rest| >= 2 && 6 <= len <= 6 + |rest|
    ensures var r := Step(EMPTY_TYPE + rest, 0, len, true, s, h, secret);
            && Claimed(EMPTY_TYPE + rest, 0) == 6 && r.v.goOn && r.buf == EMPTY_SWAPPED + rest
            && r.v.s.c.msgtype == Word(rest, 0) && r.v.s.calls == s.calls
  {
    var buf := EMPTY_TYPE + rest;
    SwappedWords(buf, 0);
    var b := SwapHeader(buf, 0);
    assert b == EMPTY_SWAPPED + rest && b[6..] == rest;
    assert Get16(buf, 0) == 6 && Get16(buf, 4) == 0 && Rule(6, 0, len, true) == Plain && Length(6) == 6;
    var r := Run(s, 0, 0, rest);
    assert r.s.c.msgtype == Word(rest, 0) && r.s.calls == s.calls && !r.ok by { hide Word; }
    assert Dispatch(b, 0, 6, 0, s).goOn && Dispatch(b, 0, 6, 0, s).s == r.s by { hide Run; }
    hide SwapHeader, Run, Dispatch, GetLe, Get16, Rule, Word;
  }

  /** If the next attribute goes wrong, so does the packet. */
  lemma EmptyTypeThen(rest: seq<byte>, len: nat, s: Session, h: Hash, secret: seq<byte>, a: Access)
    requires |rest| >= 2 && 6 < len <= 6 + |rest| && !a.Fine?
    requires forall s1: Session | s1.c.msgtype == Word(rest, 0) && s1.calls == s.calls ::
               Step(EMPTY_SWAPPED + rest, 6, len - 6, false, s1, h, secret).v.access == a
    ensures Walk(EMPTY_TYPE + rest, 0, len, true, s, h, secret).access == a
  {
    hide Walk, Step, Claimed, Word;
    var buf, after := EMPTY_TYPE + rest, EMPTY_SWAPPED + rest;
    EmptyTypeFirst(rest, len, s, h, secret);
    WalkUnfolds(buf, 0, len, true, s, h, secret);
    var s1 := Step(buf, 0, len, true, s, h, secret).v.s;
    GoOnInside(after, 6, len - 6, false, s1, h, secret);
    WalkUnfolds(after, 6, len - 6, false, s1, h, secret);
  }

  lemma HeadlessSecond(rest: seq<byte>, len: nat, s: Session, h: Hash, secret: seq<byte>)
    requires SHORTEST_HEADLESS <= len <= SHORTEST_HEADLESS + |rest| && s.c.msgtype == OCRQ && s.calls == []
    ensures Step(EMPTY_SWAPPED + (HEADLESS + rest), 6, len - 6, false, s, h, secret).v.access == Null
  {
    var buf := EMPTY_SWAPPED + (HEADLESS + rest);
    SwappedWords(buf, 6);
    assert Get16(buf, 6) == 7 && Get16(buf, 10) == 21;
    assert Rule(7, 21, len - 6, false) == Plain;
    hide SwapHeader, Run;
  }

  lemma HeadlessIsNull(rest: seq<byte>, len: nat, s: Session, h: Hash, secret: seq<byte>)
    requires SHORTEST_HEADLESS <= len <= SHORTEST_HEADLESS + |rest| && s.calls == []
    ensures Walk(EMPTY_TYPE + (HEADLESS + rest), 0, len, true, s, h, secret).access == Null
  {
    var behind := HEADLESS + rest;
    assert Word(behind, 0) == OCRQ;
    hide Walk, Step, Word;
    forall s1: Session | s1.c.msgtype == OCRQ && s1.calls == s.calls
      ensures Step(EMPTY_SWAPPED + behind, 6, len - 6, false, s1, h, secret).v.access == Null
    {
      HeadlessSecond(rest, len, s1, h, secret);
    }
    EmptyTypeThen(behind, len, s, h, secret, Null);
  }

  // ----- a body whose message has no name -----

  const SHORTEST_NAMELESS := 7

  /** An unknown attribute that claims one byte, over a Host Name of none. */
  const NAMELESS: seq<byte> := [0, 1, 0, 6, 0, 40, 7]

  lemma NamelessFirst(rest: seq<byte>, len: nat, s: Session, h: Hash, secret: seq<byte>)
    requires SHORTEST_NAMELESS <= len <= |NAMELESS + rest|
    ensures var buf := NAMELESS + rest;
            var r := Step(buf, 0, len, true, s, h, secret);
            && Claimed(buf, 0) == 1 && r.v == GoesOn(s) && r.buf == [1, 0, 6, 0, 40, 0, 7] + rest
  {
    var buf := NAMELESS + rest;
    SwappedWords(buf, 0);
    assert SwapHeader(buf, 0) == [1, 0, 6, 0, 40, 0, 7] + rest;
    assert Get16(buf, 0) == 1 && Get16(buf, 4) == 40;
    hide SwapHeader, GetLe, Get16;
  }

  lemma NamelessSecond(rest: seq<byte>, len: nat, s: Session, h: Hash, secret: seq<byte>)
    requires SHORTEST_NAMELESS <= len <= |NAMELESS + rest| && !Named(s.c.msgtype)
    ensures var buf := [1, 0, 6, 0, 40, 0, 7] + rest;
            |buf| == |NAMELESS + rest| && Step(buf, 1, len - 1, false, s, h, secret).v.access == Unnamed
  {
    var buf := [1, 0, 6, 0, 40, 0, 7] + rest;
    SwappedWords(buf, 1);
    assert Get16(buf, 1) == 6 && Get16(buf, 5) == 7;
    assert Rule(6, 7, len - 1, false) == Plain;
    hide SwapHeader, Run;
  }

  lemma NamelessIsRead(rest: seq<byte>, len: nat, s: Session, h: Hash, secret: seq<byte>)
    requires SHORTEST_NAMELESS <= len <= |NAMELESS + rest| && s.c.msgtype == -1
    ensures Walk(NAMELESS + rest, 0, len, true, s, h, secret).access == Unnamed
  {
    var buf := NAMELESS + rest;
    hide Walk, Step, Claimed;
    NamelessFirst(rest, len, s, h, secret);
    WalkUnfolds(buf, 0, len, true, s, h, secret);
    var r := Step(buf, 0, len, true, s, h, secret);
    NamelessSecond(rest, len, s, h, secret);
    GoOnInside(r.buf, 1, len - 1, false, s, h, secret);
    WalkUnfolds(r.buf, 1, len - 1, false, s, h, secret);
  }

  /** A Host Name of none, behind a Message Type with no value. */
  const VALUELESS: seq<byte> := [0x80, 6, 0, 0, 0, 7]

  lemma ValuelessSecond(rest: seq<byte>, len: nat, s: Session, h: Hash, secret: seq<byte>)
    requires 12 <= len <= 12 + |rest| && !Named(s.c.msgtype)
    ensures Step(EMPTY_SWAPPED + (VALUELESS + rest), 6, len - 6, false, s, h, secret).v.access == Unnamed
  {
    var buf := EMPTY_SWAPPED + (VALUELESS + rest);
    SwappedWords(buf, 6);
    assert Get16(buf, 6) == 0x8006 && Get16(buf, 10) == 7;
    assert Rule(0x8006, 7, len - 6, false) == Plain;
    hide SwapHeader, Run;
  }

  lemma ValuelessIsRead(rest: seq<byte>, len: nat, s: Session, h: Hash, secret: seq<byte>)
    requires 12 <= len <= 12 + |rest|
    ensures Walk(EMPTY_TYPE + (VALUELESS + rest), 0, len, true, s, h, secret).access == Unnamed
  {
    var behind := VALUELESS + rest;
    assert Word(behind, 0) == 0x8006;
    hide Walk, Step, Word;
    forall s1: Session | s1.c.msgtype == 0x8006 && s1.calls == s.calls
      ensures Step(EMPTY_SWAPPED + behind, 6, len - 6, false, s1, h, secret).v.access == Unnamed
    {
      ValuelessSecond(rest, len, s1, h, secret);
    }
    EmptyTypeThen(behind, len, s, h, secret, Unnamed);
  }

  // ----- what all bodies of a length need -----

  /** No body of `len` bytes with `room` bytes of buffer behind it is parsed with access `a`. */
  ghost predicate Never(a: Access, len: nat, room: nat, s: Session) {
    forall buf: seq<byte>, at: nat, h: Hash, secret: seq<byte> | at + len + room <= |buf| ::
      Walk(buf, at, len, true, s, h, secret).access != a
  }

  /** The buffer is not left exactly if it holds five bytes more than a body that is not empty. */
  lemma PastExactly(len: nat, room: nat, s: Session, h: Hash)
    ensures Never(Past, len, room, s) <==> len == 0 || room >= OVERREACH
  {
    hide Walk;
    if len > 0 && room < OVERREACH {
      FillerLeaves([], len, room, true, s, h, []);
      var buf := [] + Filler(len, room);
      assert Walk(buf, 0, len, true, s, h, []).access == Past;
    } else {
      forall buf: seq<byte>, at: nat, h1: Hash, secret: seq<byte> | at + len + room <= |buf|
        ensures Walk(buf, at, len, true, s, h1, secret).access != Past
      {
        WalkStaysInside(buf, at, len, true, s, h1, secret);
      }
    }
  }

  /** No call is missed exactly if there is one, or the body has at most twelve bytes. */
  lemma NullExactly(len: nat, room: nat, s: Session, h: Hash)
    requires s.c.msgtype == -1
    ensures Never(Null, len, room, s) <==> s.calls != [] || len < SHORTEST_HEADLESS
  {
    hide Walk;
    if s.calls == [] && len >= SHORTEST_HEADLESS {
      var rest := Zeros(len + room - SHORTEST_HEADLESS);
      HeadlessIsNull(rest, len, s, h, []);
      var buf := EMPTY_TYPE + (HEADLESS + rest);
      assert |buf| == 0 + len + room;
      assert Walk(buf, 0, len, true, s, h, []).access == Null;
    } else {
      forall buf: seq<byte>, at: nat, h1: Hash, secret: seq<byte> | at + len + room <= |buf|
        ensures Walk(buf, at, len, true, s, h1, secret).access != Null
      {
        if s.calls != [] {
          WalkFindsCall(buf, at, len, true, s, h1, secret);
        } else {
          ShortFindsNone(buf, at, len, true, s, h1, secret);
        }
      }
    }
  }

  /** The table of names is not left exactly if the body has at most six bytes. */
  lemma UnnamedExactly(len: nat, room: nat, s: Session, h: Hash)
    requires s.c.msgtype == -1
    ensures Never(Unnamed, len, room, s) <==> len < SHORTEST_NAMELESS
  {
    hide Walk;
    if len >= SHORTEST_NAMELESS {
      var rest := Zeros(len + room - SHORTEST_NAMELESS);
      NamelessIsRead(rest, len, s, h, []);
      assert |NAMELESS + rest| == 0 + len + room;
      assert Walk(NAMELESS + rest, 0, len, true, s, h, []).access == Unnamed;
    } else {
      forall buf: seq<byte>, at: nat, h1: Hash, secret: seq<byte> | at + len + room <= |buf|
        ensures Walk(buf, at, len, true, s, h1, secret).access != Unnamed
      {
        ShortIsLocal(buf, at, len, s, h1, secret);
      }
    }
  }

  /** Every body of `len` bytes with `room` bytes of buffer behind it is parsed with no access
      to what is not there. */
  ghost predicate AllFine(len: nat, room: nat, s: Session) {
    forall buf: seq<byte>, at: nat, h: Hash, secret: seq<byte> | at + len + room <= |buf| ::
      Walk(buf, at, len, true, s, h, secret).access.Fine?
  }

  lemma AllFineParts(len: nat, room: nat, s: Session)
    ensures AllFine(len, room, s) <==>
              Never(Past, len, room, s) && Never(Null, len, room, s) && Never(Unnamed, len, room, s)
  {
    hide Walk;
    if AllFine(len, room, s) {
      assert forall a: Access :: a != Fine ==> Never(a, len, room, s);
    }
  }

  /** What all bodies of a length need, exactly: to be empty, or five bytes of buffer behind
      them and no more than six of their own. */
  lemma RoomNeeded(len: nat, room: nat, s: Session, h: Hash)
    requires s.c.msgtype == -1
    ensures AllFine(len, room, s) <==> len == 0 || (room >= OVERREACH && len < SHORTEST_NAMELESS)
  {
    hide AllFine, Never;
    AllFineParts(len, room, s);
    PastExactly(len, room, s, h);
    NullExactly(len, room, s, h);
    UnnamedExactly(len, room, s, h);
  }
}
