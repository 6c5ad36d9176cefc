/** Hiding an attribute in a packet and revealing it in the packet that arrives: what the
    sender's rewriting leaves behind is what the receiver's takes apart, after the header
    has been put in host order on the way (section 4.3 of RFC 2661). */
module HiddenRoundTrip {
  import opened Words
  import opened Splicing
  import opened HiddenAvp
  import opened AvpHandlers
  import opened AvpParser
  import opened AvpMessages

  /** The bytes of the hidden attribute in the packet. */
  lemma ConcealedWire(s: seq<byte>, p: nat, len: nat, h: Hash, secret: seq<byte>, vector: seq<byte>)
    requires AVP_HDR <= len && HiddenLength(len) < 0x1000 && p + HiddenLength(len) <= |s|
    ensures var r, a := Concealed(s, p, len, h, secret, vector), AvpAt(s, p, len);
            && |r| == |s| && a.Fits()
            && r[p..p + HiddenLength(len)]
            == HiddenAvp.Hidden(h, secret, vector, a, s[p + 2 + len..p + HiddenLength(len)])
  {
    var a, pad := AvpAt(s, p, len), s[p + 2 + len..p + HiddenLength(len)];
    SpliceSlice(s, p, HiddenAvp.Hidden(h, secret, vector, a, pad), p, p + HiddenLength(len));
    hide Splice, HiddenAvp.Hidden;
  }

  lemma Get16Slice(s: seq<byte>, p: nat, n: nat, i: nat)
    requires p + n <= |s| && i + 2 <= n
    ensures Get16(s[p..p + n], i) == Get16(s, p + i)
  {
  }

  lemma SwapKeepsBody(buf: seq<byte>, at: nat, from: nat, to: nat)
    requires at + AVP_HDR <= from <= to <= |buf|
    ensures |SwapHeader(buf, at)| == |buf| && SwapHeader(buf, at)[from..to] == buf[from..to]
  {
  }

  /** Header words and masked body as the receiver sees them. */
  lemma ConcealedRead(s: seq<byte>, p: nat, len: nat, h: Hash, secret: seq<byte>, vector: seq<byte>)
    requires AVP_HDR <= len && HiddenLength(len) < 0x1000 && p + HiddenLength(len) <= |s|
    ensures var r := Concealed(s, p, len, h, secret, vector);
            && |r| == |s|
            && var b, wire := SwapHeader(r, p), r[p..p + HiddenLength(len)];
               && |b| == |s| && GetLe(b, p) == Get16(wire, 0) && GetLe(b, p + 2) == Get16(wire, 2)
               && GetLe(b, p + 4) == Get16(wire, 4)
               && b[p + AVP_HDR..p + HiddenLength(len)] == wire[AVP_HDR..]
  {
    ConcealedWire(s, p, len, h, secret, vector);
    var r, n := Concealed(s, p, len, h, secret, vector), HiddenLength(len);
    hide Concealed, HiddenAvp.Hidden, HiddenLength;
    SwappedWords(r, p);
    SwapKeepsBody(r, p, p + AVP_HDR, p + n);
    Get16Slice(r, p, n, 0);
    Get16Slice(r, p, n, 2);
    Get16Slice(r, p, n, 4);
    assert r[p..p + n][AVP_HDR..] == r[p + AVP_HDR..p + n];
  }

  lemma TopNibble(flags: nat, size: nat)
    requires flags < 16 && AVP_HDR <= size < 0x1000
    ensures (flags * 0x1000 + size) % 0x1000 == size
  {
  }

  lemma RevealFromWords(b: seq<byte>, p: nat, wire: seq<byte>, h: Hash, secret: seq<byte>, vector: seq<byte>)
    requires 8 <= |wire| < 0x1000 && p + |wire| <= |b| && Get16(wire, 0) % 0x1000 == |wire|
    requires GetLe(b, p) == Get16(wire, 0) && GetLe(b, p + 2) == Get16(wire, 2) && GetLe(b, p + 4) == Get16(wire, 4)
    requires b[p + AVP_HDR..p + |wire|] == wire[AVP_HDR..]
    ensures HiddenInside(b, p) && HostLength(b, p) == |wire|
    ensures RevealAt(b, p, h, secret, Vector(vector))
         == Reveal(h, secret, vector, Get16(wire, 0), Get16(wire, 2), Get16(wire, 4), wire[AVP_HDR..])
  {
    hide Reveal, GetLe, Get16;
  }

  /** `decrypt_avp` after `encrypt_avp`: attribute, vendor, flags and value come back. */
  lemma DecryptUndoesEncrypt(s: seq<byte>, p: nat, len: nat, h: Hash, secret: seq<byte>, vector: seq<byte>)
    requires AVP_HDR <= len && HiddenLength(len) < 0x1000 && p + HiddenLength(len) <= |s|
    requires AvpAt(s, p, len).flags / 4 % 2 == 0
    ensures |Concealed(s, p, len, h, secret, vector)| == |s|
    ensures var b, a := SwapHeader(Concealed(s, p, len, h, secret, vector), p), AvpAt(s, p, len);
            && HiddenInside(b, p) && HostLength(b, p) == HiddenLength(len)
            && GetLe(b, p) == SetHidden(a.flags) * 0x1000 + HiddenLength(len) && GetLe(b, p + 4) == a.attr
            && RevealAt(b, p, h, secret, Vector(vector)) == Revealed(a)
  {
    var a, pad := AvpAt(s, p, len), s[p + 2 + len..p + HiddenLength(len)];
    assert AVP_HDR + PaddedSize(|a.value|) == HiddenLength(len);
    assert SetHidden(a.flags) < 16 && 8 <= HiddenLength(len);
    hide *;
    ConcealedWire(s, p, len, h, secret, vector);
    ConcealedRead(s, p, len, h, secret, vector);
    RevealInvertsHidden(h, secret, vector, a, pad);
    TopNibble(SetHidden(a.flags), HiddenLength(len));
    HiddenWords(h, secret, vector, a, pad);
    var r := Concealed(s, p, len, h, secret, vector);
    RevealFromWords(SwapHeader(r, p), p, r[p..p + HiddenLength(len)], h, secret, vector);
  }

  lemma HiddenWords(h: Hash, secret: seq<byte>, vector: seq<byte>, a: Avp, pad: seq<byte>)
    requires a.Fits() && |pad| == PaddedSize(|a.value|) - |a.value| - 2
    ensures Get16(HiddenAvp.Hidden(h, secret, vector, a, pad), 4) == a.attr
  {
    var size := AVP_HDR + PaddedSize(|a.value|);
    var mask := Mask(h, secret, FirstDigest(h, a.attr, secret, vector), Subformat(a.value, pad));
    HeaderFields(SetHidden(a.flags) * 0x1000 + size, a.vendor, a.attr, mask);
    hide Mask, WireHeader, Get16, SetHidden, Subformat, PaddedSize;
  }

  // ----- the parser over a hidden attribute -----

  /** The packet holds the attribute `a` two bytes past `p`, with no flag but its M bit. */
  predicate Holds(s: seq<byte>, p: nat, len: nat, a: Attr) {
    && AVP_HDR <= len && p + 2 + len <= |s|
    && AvpAt(s, p, len).flags == (if a.mandatory then 8 else 0)
    && AvpAt(s, p, len).attr == a.attr && AvpAt(s, p, len).value == a.value
  }

  lemma HiddenWordRules(flags: nat, size: nat, attr: nat, left: nat)
    requires flags in {0, 8} && AVP_HDR <= size < 0x400 && size <= left && attr <= ATTR_MAX
    ensures var word := SetHidden(flags) * 0x1000 + size;
            && word < 0x1_0000 && Rule(word, attr, left, false) == Ruling.Hidden && Length(word) == size
            && (Mandatory(word) <==> flags == 8)
  {
  }

  /** Where the revealed attribute lies in the packet. */
  lemma RestoredLayout(b: seq<byte>, p: nat, h: Hash, secret: seq<byte>, vector: Vector)
    requires HiddenInside(b, p) && HostLength(b, p) < 0x400
    requires RevealAt(b, p, h, secret, vector).Revealed?
    ensures var b1, v := Restored(b, p, h, secret, vector), RevealAt(b, p, h, secret, vector).avp;
            && |b1| == |b| && p + 8 + |v.value| <= |b| && AVP_HDR + |v.value| < 0x400
            && GetLe(b1, p + 2) == v.flags * 0x1000 + AVP_HDR + |v.value|
            && b1[p + 8..p + 8 + |v.value|] == v.value
  {
    var v, b1 := RevealAt(b, p, h, secret, vector).avp, Restored(b, p, h, secret, vector);
    RestoredHoldsAvp(b, p, h, secret, vector);
    RevealedFits(b, p, h, secret, vector);
    RevealedInside(b, p, h, secret, vector);
    hide Restored, RevealAt, HostHeader;
    HostHeaderWord(b1, p + 2, v.flags * 0x1000 + AVP_HDR + |v.value|, v.vendor, v.attr);
  }

  /** What the handler of the revealed attribute gets. */
  lemma RevealedDispatch(b: seq<byte>, p: nat, a: Attr, s: Session, h: Hash, secret: seq<byte>, vector: Vector)
    requires HiddenInside(b, p) && HostLength(b, p) < 0x400 && Sendable(a)
    requires RevealAt(b, p, h, secret, vector).Revealed?
    requires var v := RevealAt(b, p, h, secret, vector).avp;
             v.flags == (if a.mandatory then 8 else 0) && v.attr == a.attr && v.value == a.value
    ensures var b1 := Restored(b, p, h, secret, vector);
            && |b1| == |b| && p + 2 + AVP_HDR <= p + 2 + Length(GetLe(b1, p + 2)) <= |b1|
            && var d := Dispatch(b1, p + 2, GetLe(b1, p + 2), a.attr, s); Done(d.s, d.goOn, d.access) == Handle(a, s)
  {
    hide Restored, RevealAt, GetLe, Handle, Dispatch, Length, Sendable, HiddenInside;
    RestoredLayout(b, p, h, secret, vector);
    var b1 := Restored(b, p, h, secret, vector);
    var post := b1[p + 8 + |a.value|..];
    assert b1[p + 8..] == a.value + post;
    DispatchOfWire(b1, p + 2, a, post, s);
  }

  /** One step of the walk over an attribute the sender hid is one handler run on its plain
      value, and the walk goes on behind the hidden one. */
  lemma StepOfHidden(s: seq<byte>, p: nat, len: nat, a: Attr, left: nat, session: Session, h: Hash, secret: seq<byte>,
                     vector: seq<byte>)
    requires Sendable(a) && Holds(s, p, len, a) && HiddenLength(len) < 0x400
    requires HiddenLength(len) <= left && p + left <= |s| && session.t.vector == Vector(vector)
    ensures |Concealed(s, p, len, h, secret, vector)| == |s|
    ensures var buf := Concealed(s, p, len, h, secret, vector);
            var r := Step(buf, p, left, false, session, h, secret);
            Claimed(buf, p) == HiddenLength(len) && Done(r.v.s, r.v.goOn, r.v.access) == Handle(a, session)
  {
    hide Concealed, SwapHeader, GetLe, Get16, Rule, SetHidden, RevealAt, Restored, Dispatch, Handle, HiddenStep,
         HiddenLength, Step, Length, Sendable, HiddenInside;
    DecryptUndoesEncrypt(s, p, len, h, secret, vector);
    var buf, flags := Concealed(s, p, len, h, secret, vector), AvpAt(s, p, len).flags;
    var b := SwapHeader(buf, p);
    assert a.attr <= ATTR_MAX by { SendableIsKnown(a); }
    HiddenWordRules(flags, HiddenLength(len), a.attr, left);
    RuledLength(GetLe(b, p), a.attr, left, false);
    StepIsHidden(buf, p, left, session, h, secret);
    RevealedDispatch(b, p, a, session, h, secret, Vector(vector));
    HiddenStepReveals(b, p, GetLe(b, p), a.attr, session, h, secret);
  }

  lemma SendableIsKnown(a: Attr)
    requires Sendable(a)
    ensures a.attr <= ATTR_MAX
  {
  }

  lemma StepIsHidden(buf: seq<byte>, p: nat, left: nat, s: Session, h: Hash, secret: seq<byte>)
    requires p + left <= |buf| && AVP_HDR <= left
    requires var b := SwapHeader(buf, p);
             var word := GetLe(b, p);
             && Rule(word, GetLe(b, p + 4), left, false) == Ruling.Hidden
             && AVP_HDR <= Length(word) <= left && word % 0x1000 == Length(word)
    ensures var b := SwapHeader(buf, p);
            var word := GetLe(b, p);
            && Claimed(buf, p) == Length(word)
            && Step(buf, p, left, false, s, h, secret) == HiddenStep(b, p, word, GetLe(b, p + 4), s, h, secret)
  {
    var b := SwapHeader(buf, p);
    SwappedWords(buf, p);
    hide SwapHeader, GetLe, Get16, Rule, HiddenStep, Length;
  }

  lemma HiddenStepReveals(b: seq<byte>, p: nat, word: u16, attr: nat, s: Session, h: Hash, secret: seq<byte>)
    requires p + AVP_HDR <= |b| && word == GetLe(b, p) && attr == GetLe(b, p + 4)
    requires AVP_HDR <= Length(word) && p + Length(word) <= |b| && word % 0x1000 == Length(word)
    requires s.t.vector.Vector? && HiddenInside(b, p) && RevealAt(b, p, h, secret, s.t.vector).Revealed?
    ensures var b1 := Restored(b, p, h, secret, s.t.vector);
            && |b1| == |b| && p + 2 + AVP_HDR <= p + 2 + Length(GetLe(b1, p + 2)) <= |b1|
            && HiddenStep(b, p, word, attr, s, h, secret).v == Dispatch(b1, p + 2, GetLe(b1, p + 2), attr, s)
  {
    RevealedInside(b, p, h, secret, s.t.vector);
    hide RevealAt, Restored, Dispatch;
  }
}
