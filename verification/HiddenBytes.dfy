/** Hidden AVPs byte by byte, as section 4.3 of RFC 2661 has them: every byte of the masked
    part is the plain one combined with a byte of the digest of a string that is written out
    here. This is what makes the two directions understand any other implementation. */
module HiddenBytes {
  import opened Words
  import opened Splicing
  import opened HiddenAvp

  /** Byte `j` of segment `k`. */
  lemma {:induction false} MaskBytes(h: Hash, secret: seq<byte>, d: Sig, plain: seq<byte>, k: nat, j: nat)
    requires |plain| % 16 == 0 && j < 16 && 16 * k + j < |plain|
    ensures var c := Mask(h, secret, d, plain);
            && 16 * k <= |c|
            && c[16 * k + j] == XorByte(plain[16 * k + j],
                                        (if k == 0 then d else h(secret + c[16 * k - 16..16 * k]))[j])
    decreases k
  {
    var first := XorSeq(plain[..SIG], d);
    if k > 0 {
      var rest, d1 := plain[SIG..], h(secret + first);
      MaskBytes(h, secret, d1, rest, k - 1, j);
      var m := Mask(h, secret, d1, rest);
      assert Mask(h, secret, d, plain) == first + m;
      if k > 1 {
        assert (first + m)[16 * k - 16..16 * k] == m[16 * k - 32..16 * k - 16];
      } else {
        assert (first + m)[0..16] == first;
      }
    }
  }

  /** The masked part of a hidden AVP, where the packet holds it. */
  lemma MaskedPart(s: seq<byte>, p: nat, len: nat, h: Hash, secret: seq<byte>, vector: seq<byte>)
    requires AVP_HDR <= len && HiddenLength(len) < 0x1000 && p + HiddenLength(len) <= |s|
    ensures var r, end := Concealed(s, p, len, h, secret, vector), p + HiddenLength(len);
            var plain := Be16(len - AVP_HDR) + s[p + 8..end];
            && |plain| == HiddenLength(len) - AVP_HDR && |r| == |s|
            && r[..p] == s[..p] && r[end..] == s[end..]
            && r[p + 6..end] == Mask(h, secret, h(s[p + 6..p + 8] + secret + vector), plain)
  {
    var a, end := AvpAt(s, p, len), p + HiddenLength(len);
    var pad := s[p + 2 + len..end];
    Get16Stored(s, p + 6);
    SliceJoins(s, p + 8, p + 2 + len, end);
    assert Subformat(a.value, pad) == Be16(len - AVP_HDR) + s[p + 8..end];
    assert FirstDigest(h, a.attr, secret, vector) == h(s[p + 6..p + 8] + secret + vector);
    var w := Hidden(h, secret, vector, a, pad);
    var mask := Mask(h, secret, FirstDigest(h, a.attr, secret, vector), Subformat(a.value, pad));
    assert w[AVP_HDR..] == mask by { hide Mask, Subformat, FirstDigest, Be16; }
    assert Concealed(s, p, len, h, secret, vector) == Splice(s, p, w);
    hide *;
    SpliceSlice(s, p, w, p + AVP_HDR, end);
    SpliceSlice(s, p, w, 0, p);
    SpliceSlice(s, p, w, end, |s|);
  }

  /** The string whose digest masks segment `k` of the part of `r` that starts at `from`: attribute,
      secret and random vector, or the secret and the segment masked before. */
  function KeyString(attr: seq<byte>, secret: seq<byte>, vector: seq<byte>, r: seq<byte>, from: nat, k: nat): seq<byte>
    requires from + 16 * k <= |r|
  {
    if k == 0 then attr + secret + vector else secret + r[from + 16 * k - 16..from + 16 * k]
  }

  /** Byte `i` of what is masked: the length of the value in two bytes, the value, and what is
      behind it. */
  function PlainByte(s: seq<byte>, p: nat, len: nat, i: nat): byte
    requires 6 <= len < 0x1000 && p + 6 + i < |s|
  {
    if i == 0 then (len - 6) / 0x100 else if i == 1 then (len - 6) % 0x100 else s[p + 6 + i]
  }

  /** Every byte that `encrypt_avp` masks, byte `j` of segment `k`. */
  lemma ConcealedByte(s: seq<byte>, p: nat, len: nat, h: Hash, secret: seq<byte>, vector: seq<byte>, k: nat, j: nat)
    requires AVP_HDR <= len && HiddenLength(len) < 0x1000 && p + HiddenLength(len) <= |s|
    requires j < 16 && 16 * k + j < HiddenLength(len) - AVP_HDR
    ensures var r, i := Concealed(s, p, len, h, secret, vector), 16 * k + j;
            && |r| == |s|
            && r[p + 6 + i] == XorByte(PlainByte(s, p, len, i),
                                       h(KeyString(s[p + 6..p + 8], secret, vector, r, p + 6, k))[j])
  {
    var r, end := Concealed(s, p, len, h, secret, vector), p + HiddenLength(len);
    var plain, attr := Be16(len - AVP_HDR) + s[p + 8..end], s[p + 6..p + 8];
    hide Concealed, Mask, XorByte, HiddenLength, Be16, PlainByte, KeyString;
    MaskedPart(s, p, len, h, secret, vector);
    PlainIndex(s, p, len, end, 16 * k + j);
    MaskedInside(r, p + 6, end, h, secret, attr, vector, plain, k, j);
  }

  lemma PlainIndex(s: seq<byte>, p: nat, len: nat, end: nat, i: nat)
    requires AVP_HDR <= len < 0x1000 && p + 8 <= end <= |s| && i < end - p - 6
    ensures (Be16(len - AVP_HDR) + s[p + 8..end])[i] == PlainByte(s, p, len, i)
  {
  }

  /** Masked bytes where a packet holds them. */
  lemma MaskedInside(r: seq<byte>, from: nat, end: nat, h: Hash, secret: seq<byte>, attr: seq<byte>, vector: seq<byte>,
                     plain: seq<byte>, k: nat, j: nat)
    requires |plain| % 16 == 0 && from + |plain| == end <= |r|
    requires r[from..end] == Mask(h, secret, h(attr + secret + vector), plain) && j < 16 && 16 * k + j < |plain|
    ensures r[from + 16 * k + j] == XorByte(plain[16 * k + j], h(KeyString(attr, secret, vector, r, from, k))[j])
  {
    hide Mask, XorByte;
    MaskBytes(h, secret, h(attr + secret + vector), plain, k, j);
    ByteOfSlice(r, from, end, k, j);
  }

  /** A byte and the segment before its own, seen from the whole. */
  lemma ByteOfSlice(r: seq<byte>, from: nat, end: nat, k: nat, j: nat)
    requires from + 16 * k + j < end <= |r|
    ensures r[from..end][16 * k + j] == r[from + 16 * k + j]
    ensures k > 0 ==> r[from..end][16 * k - 16..16 * k] == r[from + 16 * k - 16..from + 16 * k]
  {
    if k > 0 {
      SliceOfSlice(r, from, end, 16 * k - 16, 16 * k);
    }
  }

  /** The header of a hidden AVP: its other flags, vendor and attribute are kept, the H bit is
      set, and the length is that of the header and the least multiple of 16 that holds the
      value and its length. */
  lemma ConcealedHeader(s: seq<byte>, p: nat, len: nat, h: Hash, secret: seq<byte>, vector: seq<byte>)
    requires AVP_HDR <= len && HiddenLength(len) < 0x1000 && p + HiddenLength(len) <= |s|
    ensures var r, end := Concealed(s, p, len, h, secret, vector), p + 6 + (len - 4 + 15) / 16 * 16;
            && |r| == |s| && end <= |s| && r[..p] == s[..p] && r[end..] == s[end..]
            && r[p + 2..p + 6] == s[p + 4..p + 8]
            && Get16(r, p) % 0x1000 == end - p && Get16(r, p) / 0x4000 % 2 == 1
            && Get16(r, p) / 0x8000 == Get16(s, p + 2) / 0x8000
            && Get16(r, p) / 0x1000 % 4 == Get16(s, p + 2) / 0x1000 % 4
  {
    var a, length := AvpAt(s, p, len), HiddenLength(len);
    var r, w := Concealed(s, p, len, h, secret, vector), Hidden(h, secret, vector, a, s[p + 2 + len..p + length]);
    MaskedPart(s, p, len, h, secret, vector);
    assert length == 6 + (len - 4 + 15) / 16 * 16;
    var word := SetHidden(a.flags) * 0x1000 + length;
    assert w[..AVP_HDR] == WireHeader(word, a.vendor, a.attr) by { hide Mask, FirstDigest, Subformat, WireHeader; }
    Get16Stored(s, p + 4);
    Get16Stored(s, p + 6);
    SpliceSlice(s, p, w, p, p + 6);
    assert r[p..p + 6] == Be16(word) + s[p + 4..p + 6] + s[p + 6..p + 8] by { hide Mask, FirstDigest, Splice, Hidden; }
    hide Concealed, Hidden, Mask, Splice, HiddenLength;
    HeaderBytes(s, r, p, word);
    WordFlags(Get16(s, p + 2), length, word);
  }

  lemma HeaderBytes(s: seq<byte>, r: seq<byte>, p: nat, word: u16)
    requires p + 8 <= |s| == |r| && r[p..p + 6] == Be16(word) + s[p + 4..p + 6] + s[p + 6..p + 8]
    ensures Get16(r, p) == word && r[p + 2..p + 6] == s[p + 4..p + 8]
  {
    var head := r[p..p + 6];
    assert forall k :: 0 <= k < 6 ==> head[k] == r[p + k];
    assert head[0] == Be16(word)[0] && head[1] == Be16(word)[1];
    assert r[p + 2..p + 6] == head[2..];
  }

  lemma WordFlags(was: u16, length: nat, word: u16)
    requires length < 0x1000 && word == SetHidden(was / 0x1000) * 0x1000 + length
    ensures word % 0x1000 == length && word / 0x4000 % 2 == 1 && word / 0x8000 == was / 0x8000
    ensures word / 0x1000 % 4 == was / 0x1000 % 4
  {
  }

  // ----- the way back -----

  /** The attribute in network order, the header being in host order. */
  function AttrBytes(s: seq<byte>, at: nat): seq<byte>
    requires at + 6 <= |s|
  {
    [s[at + 5], s[at + 4]]
  }

  /** Byte `j` of segment `k` as `decrypt_avp` unmasks it. */
  lemma PlainByteAt(s: seq<byte>, at: nat, h: Hash, secret: seq<byte>, vector: seq<byte>, k: nat, j: nat)
    requires HiddenInside(s, at) && j < 16 && 16 * k + j < HostLength(s, at) - AVP_HDR
    ensures PlainAt(s, at, h, secret, vector)[16 * k + j] ==
              XorByte(s[at + 6 + 16 * k + j], h(KeyString(AttrBytes(s, at), secret, vector, s, at + 6, k))[j])
  {
    var end := at + HostLength(s, at);
    var cipher, d := s[at + 6..end], FirstDigest(h, GetLe(s, at + 4), secret, vector);
    assert Be16(GetLe(s, at + 4)) == AttrBytes(s, at);
    assert d == h(AttrBytes(s, at) + secret + vector);
    hide Unmask, FirstDigest, GetLe, XorByte, HostLength, AttrBytes, KeyString;
    UnmaskedInside(s, at + 6, end, h, secret, AttrBytes(s, at), vector, k, j);
  }

  lemma UnmaskedSegment(h: Hash, secret: seq<byte>, d: Sig, cipher: seq<byte>, k: nat, j: nat)
    requires j < 16 && 16 * k + j < |cipher|
    ensures Unmask(h, secret, d, cipher)[16 * k + j] ==
              XorByte(cipher[16 * k + j], (if k == 0 then d else h(secret + cipher[16 * k - 16..16 * k]))[j])
  {
    hide Unmask, XorByte;
    Segment(k, j);
    UnmaskBytes(h, secret, d, cipher, 16 * k + j);
  }

  lemma UnmaskedInside(s: seq<byte>, from: nat, end: nat, h: Hash, secret: seq<byte>, attr: seq<byte>,
                       vector: seq<byte>, k: nat, j: nat)
    requires j < 16 && from + 16 * k + j < end <= |s|
    ensures Unmask(h, secret, h(attr + secret + vector), s[from..end])[16 * k + j] ==
              XorByte(s[from + 16 * k + j], h(KeyString(attr, secret, vector, s, from, k))[j])
  {
    hide Unmask, XorByte;
    UnmaskedSegment(h, secret, h(attr + secret + vector), s[from..end], k, j);
    ByteOfSlice(s, from, end, k, j);
  }

  lemma Segment(k: nat, j: nat)
    requires j < 16
    ensures (16 * k + j) / 16 == k && (16 * k + j) % 16 == j
  {
  }

  /** A hidden AVP is revealed exactly if the length that its first two bytes give, combined
      with the digest of attribute, secret and vector, is inside it. */
  lemma RevealedExactly(s: seq<byte>, at: nat, h: Hash, secret: seq<byte>, vector: seq<byte>)
    requires HiddenInside(s, at)
    ensures var d, end := h(AttrBytes(s, at) + secret + vector), at + HostLength(s, at);
            var n := XorByte(s[at + 6], d[0]) * 0x100 + XorByte(s[at + 7], d[1]);
            var r := RevealAt(s, at, h, secret, Vector(vector));
            && (r.Revealed? <==> at + 8 <= end && at + 8 + n <= end)
            && (r.Revealed? ==> |r.avp.value| == n)
  {
    var plain := PlainAt(s, at, h, secret, vector);
    assert RevealAt(s, at, h, secret, Vector(vector)).Revealed? <==> |plain| >= 2 && Get16(plain, 0) + 2 <= |plain| by {
      hide Unmask, FirstDigest, ClearHidden, GetLe, Get16;
    }
    if |plain| >= 2 {
      PlainByteAt(s, at, h, secret, vector, 0, 0);
      PlainByteAt(s, at, h, secret, vector, 0, 1);
    }
    hide PlainAt, XorByte, HostLength;
  }

  /** Then every byte of the value is the masked one combined with its digest, and the header
      before it has the flags without the H bit, the length of header and value, and vendor and
      attribute as they were; the rest of the packet is as it was. */
  lemma RevealedByte(s: seq<byte>, at: nat, h: Hash, secret: seq<byte>, vector: seq<byte>, k: nat, j: nat)
    requires HiddenInside(s, at) && RevealAt(s, at, h, secret, Vector(vector)).Revealed?
    requires j < 16 && 2 <= 16 * k + j < 2 + |RevealAt(s, at, h, secret, Vector(vector)).avp.value|
    ensures var r, i := Restored(s, at, h, secret, Vector(vector)), 16 * k + j;
            && |r| == |s| && i + 6 < HostLength(s, at)
            && r[at + 6 + i] == XorByte(s[at + 6 + i],
                                        h(KeyString(AttrBytes(s, at), secret, vector, s, at + 6, k))[j])
  {
    hide RevealAt, Restored, PlainAt, XorByte, HostLength, KeyString, AttrBytes;
    ValueByte(s, at, h, secret, vector, 16 * k + j);
    PlainByteAt(s, at, h, secret, vector, k, j);
  }

  lemma ValueByte(s: seq<byte>, at: nat, h: Hash, secret: seq<byte>, vector: seq<byte>, i: nat)
    requires HiddenInside(s, at) && RevealAt(s, at, h, secret, Vector(vector)).Revealed?
    requires 2 <= i < 2 + |RevealAt(s, at, h, secret, Vector(vector)).avp.value|
    ensures var r := Restored(s, at, h, secret, Vector(vector));
            |r| == |s| && i + 6 < HostLength(s, at) && r[at + 6 + i] == PlainAt(s, at, h, secret, vector)[i]
  {
    var a, r := RevealAt(s, at, h, secret, Vector(vector)).avp, Restored(s, at, h, secret, Vector(vector));
    hide RevealAt, Restored, PlainAt, HostLength;
    RevealedFits(s, at, h, secret, Vector(vector));
    RestoredHoldsAvp(s, at, h, secret, Vector(vector));
    var value := r[at + 8..at + 8 + |a.value|];
    assert value == a.value && value[i - 2] == r[at + 6 + i];
  }

  lemma RevealedHeader(s: seq<byte>, at: nat, h: Hash, secret: seq<byte>, vector: seq<byte>)
    requires HiddenInside(s, at) && RevealAt(s, at, h, secret, Vector(vector)).Revealed?
    ensures var a, r := RevealAt(s, at, h, secret, Vector(vector)).avp, Restored(s, at, h, secret, Vector(vector));
            && |r| == |s| && r[..at + 2] == s[..at + 2] && r[at + HostLength(s, at)..] == s[at + HostLength(s, at)..]
            && r[at + 4..at + 8] == s[at + 2..at + 6]
            && GetLe(r, at + 2) % 0x1000 == 6 + |a.value| && GetLe(r, at + 2) / 0x4000 % 2 == 0
            && GetLe(r, at + 2) / 0x8000 == GetLe(s, at) / 0x8000
            && GetLe(r, at + 2) / 0x1000 % 4 == GetLe(s, at) / 0x1000 % 4
  {
    var a, r := RevealAt(s, at, h, secret, Vector(vector)).avp, Restored(s, at, h, secret, Vector(vector));
    RevealedFits(s, at, h, secret, Vector(vector));
    RestoredHoldsAvp(s, at, h, secret, Vector(vector));
    assert a.flags == ClearHidden(GetLe(s, at) / 0x1000) by { hide Unmask, FirstDigest, ClearHidden, GetLe, Get16; }
    var word := a.flags * 0x1000 + AVP_HDR + |a.value|;
    GetLeStored(s, at + 2);
    GetLeStored(s, at + 4);
    hide RevealAt, Restored, PlainAt, HiddenInside, HostLength;
    assert r[at + 2..at + 8] == Le16(word) + s[at + 2..at + 4] + s[at + 4..at + 6];
    RestoredBytes(s, r, at, word);
    ClearedFlags(GetLe(s, at), AVP_HDR + |a.value|, word);
  }

  lemma RestoredBytes(s: seq<byte>, r: seq<byte>, at: nat, word: u16)
    requires at + 8 <= |s| == |r| && r[at + 2..at + 8] == Le16(word) + s[at + 2..at + 4] + s[at + 4..at + 6]
    ensures GetLe(r, at + 2) == word && r[at + 4..at + 8] == s[at + 2..at + 6]
  {
    var head := r[at + 2..at + 8];
    assert forall k :: 0 <= k < 6 ==> head[k] == r[at + 2 + k];
    assert head[0] == Le16(word)[0] && head[1] == Le16(word)[1];
    assert r[at + 4..at + 8] == head[2..];
  }

  lemma ClearedFlags(was: u16, length: nat, word: u16)
    requires length < 0x1000 && word == ClearHidden(was / 0x1000) * 0x1000 + length
    ensures word % 0x1000 == length && word / 0x4000 % 2 == 0 && word / 0x8000 == was / 0x8000
    ensures word / 0x1000 % 4 == was / 0x1000 % 4
  {
  }
}
