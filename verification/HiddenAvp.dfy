/** Hidden AVPs (section 4.3 of RFC 2661): the value, its length and some padding
    are masked by a chain of digests. The hash is a parameter. Both directions
    rewrite the packet in place, with old and new header overlapping. */
module HiddenAvp {
  import opened Words
  import opened Splicing

  const SIG := 16
  const AVP_HDR := 6
  const HBIT := 4  // in units of the flag nibble

  type Sig = s: seq<byte> | |s| == SIG witness [0, 0, 0, 0, 0, 0, 0, 0, 0, 0, 0, 0, 0, 0, 0, 0]
  type Hash = seq<byte> -> Sig

  function XorSeq(a: seq<byte>, b: seq<byte>): (s: seq<byte>)
    requires |a| <= |b|
    ensures |s| == |a|
  {
    seq(|a|, i requires 0 <= i < |a| => XorByte(a[i], b[i]))
  }

  lemma XorSeqCancels(a: seq<byte>, b: seq<byte>)
    requires |a| <= |b|
    ensures XorSeq(XorSeq(a, b), b) == a
  {
    forall i | 0 <= i < |a| ensures XorSeq(XorSeq(a, b), b)[i] == a[i] {
      XorCancels(a[i], b[i]);
    }
  }

  // ----- the digest chain -----

  /** Mask a whole number of segments; each digest after the first is taken over
      the secret and the segment just masked. */
  function Mask(h: Hash, secret: seq<byte>, d: Sig, plain: seq<byte>): (s: seq<byte>)
    ensures |plain| % 16 == 0 ==> |s| == |plain|
    decreases |plain|
  {
    if |plain| < SIG then []
    else
      var c := XorSeq(plain[..SIG], d);
      c + Mask(h, secret, h(secret + c), plain[SIG..])
  }

  /** Remove the mask; the last segment may be short. */
  function Unmask(h: Hash, secret: seq<byte>, d: Sig, cipher: seq<byte>): (s: seq<byte>)
    ensures |s| == |cipher|
    decreases |cipher|
  {
    if |cipher| <= SIG then XorSeq(cipher, d)
    else XorSeq(cipher[..SIG], d) + Unmask(h, secret, h(secret + cipher[..SIG]), cipher[SIG..])
  }

  lemma {:induction false} UnmaskInvertsMask(h: Hash, secret: seq<byte>, d: Sig, plain: seq<byte>)
    requires |plain| % 16 == 0
    ensures Unmask(h, secret, d, Mask(h, secret, d, plain)) == plain
    decreases |plain|
  {
    if plain != [] {
      var c := XorSeq(plain[..SIG], d);
      var rest := plain[SIG..];
      UnmaskInvertsMask(h, secret, h(secret + c), rest);
      XorSeqCancels(plain[..SIG], d);
      var m := Mask(h, secret, h(secret + c), rest);
      if rest != [] {
        assert (c + m)[..SIG] == c && (c + m)[SIG..] == m;
        assert plain == plain[..SIG] + rest;
      } else {
        assert m == [] && c + m == c && plain[..SIG] == plain;
      }
    }
  }

  // ----- the hidden format -----

  /** The size of the masked part for a value of `n` bytes. */
  function PaddedSize(n: nat): nat {
    ((n + 1) / 16 + 1) * 16
  }

  lemma PaddedSizeIsLeast(n: nat, m: nat)
    ensures PaddedSize(n) % 16 == 0 && n + 2 <= PaddedSize(n)
    ensures m % 16 == 0 && n + 2 <= m ==> PaddedSize(n) <= m
  {
  }

  function SetHidden(flags: nat): (f: nat)
    requires flags < 16
    ensures f < 16
  {
    if flags / 4 % 2 == 1 then flags else flags + HBIT
  }

  function ClearHidden(flags: nat): (f: nat)
    requires flags < 16
    ensures f < 16
  {
    if flags / 4 % 2 == 1 then flags - HBIT else flags
  }

  /** A plain AVP: flag nibble and length, vendor, attribute, value. */
  datatype Avp = Avp(flags: nat, vendor: u16, attr: u16, value: seq<byte>) {
    predicate Fits() {
      flags < 16 && AVP_HDR + PaddedSize(|value|) < 0x1000
    }
  }

  /** A header in memory, high byte first as on the wire or low byte first as
      the host has it after swapping. */
  function WireHeader(word: u16, vendor: u16, attr: u16): (s: seq<byte>)
    ensures |s| == AVP_HDR
  {
    Be16(word) + Be16(vendor) + Be16(attr)
  }

  function HostHeader(word: u16, vendor: u16, attr: u16): (s: seq<byte>)
    ensures |s| == AVP_HDR
  {
    Le16(word) + Le16(vendor) + Le16(attr)
  }

  function FirstDigest(h: Hash, attr: u16, secret: seq<byte>, vector: seq<byte>): Sig {
    h(Be16(attr) + secret + vector)
  }

  /** What is masked: the value's length, the value and the padding. */
  function Subformat(value: seq<byte>, pad: seq<byte>): seq<byte>
    requires |value| < 0x1_0000
  {
    Be16(|value|) + value + pad
  }

  /** The bytes of a hidden AVP on the wire. */
  function Hidden(h: Hash, secret: seq<byte>, vector: seq<byte>, a: Avp, pad: seq<byte>): (s: seq<byte>)
    requires a.Fits() && |pad| == PaddedSize(|a.value|) - |a.value| - 2
    ensures |s| == AVP_HDR + PaddedSize(|a.value|)
  {
    PaddedSizeIsLeast(|a.value|, 0);
    var size := PaddedSize(|a.value|);
    WireHeader(SetHidden(a.flags) * 0x1000 + AVP_HDR + size, a.vendor, a.attr)
    + Mask(h, secret, FirstDigest(h, a.attr, secret, vector), Subformat(a.value, pad))
  }

  datatype Outcome = Bad | Revealed(avp: Avp)

  /** What decryption makes of a hidden AVP with the given header words and body. */
  function Reveal(h: Hash, secret: seq<byte>, vector: seq<byte>, word: u16, vendor: u16, attr: u16,
                  body: seq<byte>): Outcome
  {
    var plain := Unmask(h, secret, FirstDigest(h, attr, secret, vector), body);
    if |plain| < 2 || Get16(plain, 0) + 2 > |plain| then Bad
    else Revealed(Avp(ClearHidden(word / 0x1000), vendor, attr, plain[2..2 + Get16(plain, 0)]))
  }

  lemma HeaderFields(word: u16, vendor: u16, attr: u16, rest: seq<byte>)
    ensures var s := WireHeader(word, vendor, attr) + rest;
            Get16(s, 0) == word && Get16(s, 2) == vendor && Get16(s, 4) == attr && s[AVP_HDR..] == rest
  {
  }

  lemma SubformatFields(value: seq<byte>, pad: seq<byte>)
    requires |value| < 0x1_0000
    ensures var s := Subformat(value, pad);
            |s| == 2 + |value| + |pad| && Get16(s, 0) == |value| && s[2..2 + |value|] == value
  {
  }

  lemma FlagsRoundTrip(flags: nat, size: nat)
    requires flags < 16 && flags / 4 % 2 == 0 && size < 0x1000
    ensures SetHidden(flags) * 0x1000 + size < 0x1_0000
    ensures ClearHidden((SetHidden(flags) * 0x1000 + size) / 0x1000) == flags
  {
  }

  /** Decryption restores attribute, vendor, M bit, length and value of every AVP
      that fits, whatever the hash, the secret, the vector and the padding. */
  lemma RevealInvertsHidden(h: Hash, secret: seq<byte>, vector: seq<byte>, a: Avp, pad: seq<byte>)
    requires a.Fits() && a.flags / 4 % 2 == 0
    requires |pad| == PaddedSize(|a.value|) - |a.value| - 2
    ensures var wire, size := Hidden(h, secret, vector, a, pad), AVP_HDR + PaddedSize(|a.value|);
            && Get16(wire, 0) == SetHidden(a.flags) * 0x1000 + size
            && Reveal(h, secret, vector, Get16(wire, 0), Get16(wire, 2), Get16(wire, 4), wire[AVP_HDR..]) == Revealed(a)
  {
    var sub, size := Subformat(a.value, pad), AVP_HDR + PaddedSize(|a.value|);
    PaddedSizeIsLeast(|a.value|, 0);
    SubformatFields(a.value, pad);
    FlagsRoundTrip(a.flags, size);
    hide Mask, Unmask, FirstDigest, Subformat, WireHeader, PaddedSize, SetHidden, ClearHidden, Get16;
    var d := FirstDigest(h, a.attr, secret, vector);
    UnmaskInvertsMask(h, secret, d, sub);
    HeaderFields(SetHidden(a.flags) * 0x1000 + size, a.vendor, a.attr, Mask(h, secret, d, sub));
  }

  // ----- rewriting the packet in place -----

  /** Exclusive-or one segment with a digest. */
  method XorSegment(buf: array<byte>, at: nat, digest: Sig)
    requires at + SIG <= buf.Length
    modifies buf
    ensures buf[..] == Splice(old(buf[..]), at, XorSeq(old(buf[at..at + SIG]), digest))
  {
    for cnt := 0 to SIG
      invariant forall i :: 0 <= i < buf.Length && !(at <= i < at + cnt) ==> buf[i] == old(buf[i])
      invariant forall i :: 0 <= i < cnt ==> buf[at + i] == XorByte(old(buf[at + i]), digest[i])
    {
      buf[at + cnt] := XorByte(buf[at + cnt], digest[cnt]);
    }
  }

  /** Masking has produced `done` and goes on with digest `d`. */
  ghost predicate Masking(h: Hash, secret: seq<byte>, first: Sig, plain: seq<byte>, d: Sig, done: seq<byte>) {
    |done| <= |plain| && done + Mask(h, secret, d, plain[|done|..]) == Mask(h, secret, first, plain)
  }

  lemma MaskingStarts(h: Hash, secret: seq<byte>, first: Sig, plain: seq<byte>)
    ensures Masking(h, secret, first, plain, first, [])
  {
    assert plain[0..] == plain;
  }

  lemma MaskingSteps(h: Hash, secret: seq<byte>, first: Sig, plain: seq<byte>, d: Sig, done: seq<byte>, c: seq<byte>)
    requires Masking(h, secret, first, plain, d, done) && |done| + SIG <= |plain|
    requires c == XorSeq(plain[|done|..|done| + SIG], d)
    ensures Masking(h, secret, first, plain, h(secret + c), done + c)
  {
    var todo := plain[|done|..];
    assert todo[..SIG] == plain[|done|..|done| + SIG] && todo[SIG..] == plain[|done + c|..];
  }

  lemma MaskingEnds(h: Hash, secret: seq<byte>, first: Sig, plain: seq<byte>, d: Sig, done: seq<byte>)
    requires Masking(h, secret, first, plain, d, done) && |done| == |plain|
    ensures done == Mask(h, secret, first, plain)
  {
  }

  /** Mask the next segment of the part that starts at `start`. */
  method MaskSegment(buf: array<byte>, ptr: nat, digest: Sig, ghost was: seq<byte>, ghost start: nat,
                     ghost done: seq<byte>, ghost plain: seq<byte>)
    returns (c: seq<byte>)
    requires start + |plain| <= |was| && plain == was[start..start + |plain|] && |done| + SIG <= |plain|
    requires buf[..] == Splice(was, start, done) && ptr == start + |done|
    modifies buf
    ensures c == XorSeq(plain[|done|..|done| + SIG], digest)
    ensures buf[..] == Splice(was, start, done + c)
  {
    hide XorSeq, Splice;
    SpliceSlice(was, start, done, ptr, ptr + SIG);
    SliceOfSlice(was, start, start + |plain|, |done|, |done| + SIG);
    ghost var d := XorSeq(plain[|done|..|done| + SIG], digest);
    XorSegment(buf, ptr, digest);
    SpliceAdjacent(was, start, done, d);
    SpliceSlice(was, start, done + d, ptr, ptr + SIG);
    assert (done + d)[|done|..] == d;
    c := buf[ptr..ptr + SIG];
  }

  /** Mask the bytes from `start` to `end`, segment by segment. */
  method MaskInPlace(buf: array<byte>, start: nat, end: nat, h: Hash, secret: seq<byte>, first: Sig)
    requires start <= end <= buf.Length && (end - start) % 16 == 0
    modifies buf
    ensures buf[..] == Splice(old(buf[..]), start, Mask(h, secret, first, old(buf[start..end])))
  {
    hide XorSeq, Mask, Splice, Masking;
    ghost var was, plain, done := buf[..], buf[start..end], [];
    var ptr, digest := start, first;
    EmptySplice(was, start);
    MaskingStarts(h, secret, first, plain);
    if start == end {
      MaskingEnds(h, secret, first, plain, first, []);
    }
    while ptr < end
      invariant start <= ptr <= end && (end - ptr) % 16 == 0 && |done| == ptr - start
      invariant buf[..] == Splice(was, start, done)
      invariant ptr < end ==> Masking(h, secret, first, plain, digest, done)
      invariant ptr == end ==> done == Mask(h, secret, first, plain)
    {
      var c := MaskSegment(buf, ptr, digest, was, start, done, plain);
      MaskingSteps(h, secret, first, plain, digest, done, c);
      ptr := ptr + SIG;
      done := done + c;
      if ptr < end {
        digest := h(secret + c);
      } else {
        MaskingEnds(h, secret, first, plain, h(secret + c), done);
      }
    }
  }

  lemma EmptySplice<T>(s: seq<T>, at: nat)
    requires at <= |s|
    ensures Splice(s, at, []) == s
  {
  }

  /** The plain AVP that stands two bytes past `p`, `len` bytes long. */
  function AvpAt(s: seq<byte>, p: nat, len: nat): Avp
    requires AVP_HDR <= len && p + 2 + len <= |s|
  {
    Avp(Get16(s, p + 2) / 0x1000, Get16(s, p + 4), Get16(s, p + 6), s[p + 8..p + 2 + len])
  }

  /** Once the header has moved, the masked part is complete. */
  lemma HeaderMoved(s: seq<byte>, p: nat, len: nat, length: nat, head: seq<byte>, size: seq<byte>)
    requires |head| == AVP_HDR && |size| == 2 && AVP_HDR <= len && len + 2 <= length && p + length <= |s|
    ensures Splice(s, p, head + size)[p + AVP_HDR..p + length] ==
              size + s[p + 8..p + 2 + len] + s[p + 2 + len..p + length]
  {
    SliceJoins(s, p + 8, p + 2 + len, p + length);
    SpliceSlice(s, p, head + size, p + 8, p + length);
    SpliceSlice(s, p, head + size, p + AVP_HDR, p + 8);
    assert (head + size)[AVP_HDR..8] == size;
    hide Splice;
    SliceJoins(Splice(s, p, head + size), p + AVP_HDR, p + 8, p + length);
  }

  function HiddenLength(len: nat): (length: nat)
    requires AVP_HDR <= len
    ensures len + 2 <= length && (length - AVP_HDR) % 16 == 0
  {
    PaddedSizeIsLeast(len - AVP_HDR, 0);
    AVP_HDR + PaddedSize(len - AVP_HDR)
  }

  /** The header and length field of the AVP at `p` once they have moved. */
  function MovedHeader(s: seq<byte>, p: nat, len: nat): (w: seq<byte>)
    requires AVP_HDR <= len && HiddenLength(len) < 0x1000 && p + HiddenLength(len) <= |s|
    ensures |w| == 8
  {
    WireHeader(SetHidden(Get16(s, p + 2) / 0x1000) * 0x1000 + HiddenLength(len), Get16(s, p + 4), Get16(s, p + 6))
    + Be16(len - AVP_HDR)
  }

  lemma MovedHeaderBytes(s: seq<byte>, p: nat, len: nat)
    requires AVP_HDR <= len && HiddenLength(len) < 0x1000 && p + HiddenLength(len) <= |s|
    ensures var word := SetHidden(Get16(s, p + 2) / 0x1000) * 0x1000 + HiddenLength(len);
            MovedHeader(s, p, len) == Be16(word) + s[p + 4..p + 6] + s[p + 6..p + 8] + Be16(len - AVP_HDR)
  {
    Get16Stored(s, p + 4);
    Get16Stored(s, p + 6);
  }

  /** Move the header two bytes forward over itself; the freed word becomes the
      length field of the masked part. */
  method MoveHeader(buf: array<byte>, p: nat, len: nat, length: nat)
    requires AVP_HDR <= len && length == HiddenLength(len) < 0x1000 && p + length <= buf.Length
    modifies buf
    ensures buf[..] == Splice(old(buf[..]), p, MovedHeader(old(buf[..]), p, len))
  {
    hide Splice, MovedHeader, HiddenLength, SetHidden, Get16, Be16;
    ghost var s := buf[..];
    ghost var vendor, attr := s[p + 4..p + 6], s[p + 6..p + 8];
    var word := SetHidden(Get16(buf[..], p + 2) / 0x1000) * 0x1000 + length;
    MovedHeaderBytes(s, p, len);
    SpliceSlice(s, p, Be16(word), p + 4, p + 6);
    Store(buf, p, Be16(word));
    SpliceAdjacent(s, p, Be16(word), vendor);
    Store(buf, p + 2, buf[p + 4..p + 6]);
    SpliceSlice(s, p, Be16(word) + vendor, p + 6, p + 8);
    SpliceAdjacent(s, p, Be16(word) + vendor, attr);
    Store(buf, p + 4, buf[p + 6..p + 8]);
    SpliceAdjacent(s, p, Be16(word) + vendor + attr, Be16(len - AVP_HDR));
    Store(buf, p + 6, Be16(len - AVP_HDR));
  }

  /** The whole packet with that AVP hidden. */
  function Concealed(s: seq<byte>, p: nat, len: nat, h: Hash, secret: seq<byte>, vector: seq<byte>): seq<byte>
    requires AVP_HDR <= len && HiddenLength(len) < 0x1000 && p + HiddenLength(len) <= |s|
  {
    Splice(s, p, Hidden(h, secret, vector, AvpAt(s, p, len), s[p + 2 + len..p + HiddenLength(len)]))
  }

  /** Moving the header and masking what follows is hiding the AVP. */
  lemma MoveThenMask(s: seq<byte>, p: nat, len: nat, h: Hash, secret: seq<byte>, vector: seq<byte>)
    requires AVP_HDR <= len && HiddenLength(len) < 0x1000 && p + HiddenLength(len) <= |s|
    ensures var length, moved := HiddenLength(len), Splice(s, p, MovedHeader(s, p, len));
            var mask := Mask(h, secret, FirstDigest(h, Get16(s, p + 6), secret, vector),
                             moved[p + AVP_HDR..p + length]);
            && |mask| == length - AVP_HDR
            && Concealed(s, p, len, h, secret, vector) == Splice(moved, p + AVP_HDR, mask)
  {
    var length := HiddenLength(len);
    var a, pad := AvpAt(s, p, len), s[p + 2 + len..p + length];
    var head, size := WireHeader(SetHidden(a.flags) * 0x1000 + length, a.vendor, a.attr), Be16(len - AVP_HDR);
    HeaderMoved(s, p, len, length, head, size);
    hide Mask, SetHidden, Splice, Get16, WireHeader, FirstDigest, Be16;
    var d := FirstDigest(h, a.attr, secret, vector);
    var mask := Mask(h, secret, d, Subformat(a.value, pad));
    assert MovedHeader(s, p, len) == head + size;
    assert Hidden(h, secret, vector, a, pad) == head + mask;
    hide *;
    SpliceCovers(s, p, head, size, mask);
  }

  method MaskMoved(buf: array<byte>, p: nat, length: nat, h: Hash, secret: seq<byte>, first: Sig)
    requires AVP_HDR <= length && p + length <= buf.Length && (length - AVP_HDR) % 16 == 0
    modifies buf
    ensures |Mask(h, secret, first, old(buf[..])[p + AVP_HDR..p + length])| == length - AVP_HDR
    ensures buf[..] == Splice(old(buf[..]), p + AVP_HDR, Mask(h, secret, first, old(buf[..])[p + AVP_HDR..p + length]))
  {
    hide Mask, Splice;
    assert buf[p + AVP_HDR..p + length] == buf[..][p + AVP_HDR..p + length];
    assert (p + length) - (p + AVP_HDR) == length - AVP_HDR;
    MaskInPlace(buf, p + AVP_HDR, p + length, h, secret, first);
  }

  /** Hide the AVP in place. */
  method EncryptAvp(buf: array<byte>, p: nat, len: nat, h: Hash, secret: seq<byte>, vector: seq<byte>)
    returns (length: nat)
    requires AVP_HDR <= len && HiddenLength(len) < 0x1000 && p + HiddenLength(len) <= buf.Length
    modifies buf
    ensures length == HiddenLength(len)
    ensures buf[..] == Concealed(old(buf[..]), p, len, h, secret, vector)
  {
    hide Mask, Splice, Concealed, HiddenLength, MovedHeader, FirstDigest, Get16;
    length := HiddenLength(len);
    MoveThenMask(buf[..], p, len, h, secret, vector);
    var first := FirstDigest(h, Get16(buf[..], p + 6), secret, vector);
    MoveHeader(buf, p, len, length);
    MaskMoved(buf, p, length, h, secret, first);
  }

  /** The digest that masks segment `k`: each depends only on the masked segment before it. */
  ghost function Key(h: Hash, secret: seq<byte>, d: Sig, cipher: seq<byte>, k: nat): Sig
    requires 16 * k <= |cipher|
  {
    if k == 0 then d else h(secret + cipher[16 * (k - 1)..16 * k])
  }

  ghost function UnmaskedByte(h: Hash, secret: seq<byte>, d: Sig, cipher: seq<byte>, i: nat): byte
    requires i < |cipher|
  {
    XorByte(cipher[i], Key(h, secret, d, cipher, i / 16)[i % 16])
  }

  lemma {:induction false} UnmaskBytes(h: Hash, secret: seq<byte>, d: Sig, cipher: seq<byte>, i: nat)
    requires i < |cipher|
    ensures Unmask(h, secret, d, cipher)[i] == UnmaskedByte(h, secret, d, cipher, i)
    decreases |cipher|
  {
    if |cipher| > SIG && i >= SIG {
      var rest, d1 := cipher[SIG..], h(secret + cipher[..SIG]);
      UnmaskBytes(h, secret, d1, rest, i - SIG);
      var k := i / 16;
      assert (i - 16) / 16 == k - 1 && (i - 16) % 16 == i % 16;
      if k > 1 {
        assert rest[16 * (k - 2)..16 * (k - 1)] == cipher[16 * (k - 1)..16 * k];
      }
    }
  }

  /** `out` is the beginning of the unmasked bytes. */
  ghost predicate Unmasking(h: Hash, secret: seq<byte>, d: Sig, cipher: seq<byte>, out: seq<byte>) {
    |out| <= |cipher| && forall i :: 0 <= i < |out| ==> out[i] == UnmaskedByte(h, secret, d, cipher, i)
  }

  lemma UnmaskingEnds(h: Hash, secret: seq<byte>, d: Sig, cipher: seq<byte>, out: seq<byte>)
    requires Unmasking(h, secret, d, cipher, out) && |out| == |cipher|
    ensures out == Unmask(h, secret, d, cipher)
  {
    forall i | 0 <= i < |out| ensures out[i] == Unmask(h, secret, d, cipher)[i] {
      UnmaskBytes(h, secret, d, cipher, i);
    }
  }

  lemma UnmaskingSteps(h: Hash, secret: seq<byte>, d: Sig, cipher: seq<byte>, out: seq<byte>, k: nat, cnt: nat)
    requires Unmasking(h, secret, d, cipher, out) && cnt < SIG && |out| == 16 * k + cnt < |cipher|
    ensures Unmasking(h, secret, d, cipher, out + [XorByte(cipher[|out|], Key(h, secret, d, cipher, k)[cnt])])
  {
    assert (16 * k + cnt) / 16 == k && (16 * k + cnt) % 16 == cnt;
  }

  lemma NextKey(h: Hash, secret: seq<byte>, d: Sig, cipher: seq<byte>, k: nat)
    requires 16 * (k + 1) <= |cipher|
    ensures Key(h, secret, d, cipher, 0) == d
    ensures Key(h, secret, d, cipher, k + 1) == h(secret + cipher[16 * k..16 * (k + 1)])
  {
  }

  /** At the start of a segment, take the next digest and save the masked bytes. */
  method NextSegment(buf: array<byte>, ptr: nat, end: nat, cnt: nat, digest: Sig, saved: seq<byte>, h: Hash,
                     secret: seq<byte>, ghost first: Sig, ghost cipher: seq<byte>, ghost k: nat)
    returns (cnt1: nat, digest1: Sig, saved1: seq<byte>, ghost k1: nat)
    requires ptr < end <= buf.Length && cnt <= SIG && end - ptr + 16 * k + cnt == |cipher|
    requires buf[ptr..end] == cipher[16 * k + cnt..]
    requires digest == Key(h, secret, first, cipher, k)
    requires cnt > 0 && 16 * (k + 1) <= |cipher| ==> saved == cipher[16 * k..16 * (k + 1)]
    ensures cnt1 < SIG && 16 * k1 + cnt1 == 16 * k + cnt
    ensures digest1 == Key(h, secret, first, cipher, k1)
    ensures 16 * (k1 + 1) <= |cipher| ==> saved1 == cipher[16 * k1..16 * (k1 + 1)]
  {
    cnt1, digest1, saved1, k1 := cnt, digest, saved, k;
    if cnt1 >= SIG {
      NextKey(h, secret, first, cipher, k);
      digest1 := h(secret + saved);
      cnt1 := 0;
      k1 := k + 1;
    }
    if cnt1 == 0 {
      var n := if end - ptr < SIG then end - ptr else SIG;
      saved1 := buf[ptr..ptr + n];
      assert saved1 == buf[ptr..end][..n];
      assert cipher[16 * k1..][..n] == cipher[16 * k1..16 * k1 + n];
    }
  }

  /** Remove the mask from the bytes from `start` to `end`, byte by byte. */
  method UnmaskInPlace(buf: array<byte>, start: nat, end: nat, h: Hash, secret: seq<byte>, first: Sig)
    requires start <= end <= buf.Length
    modifies buf
    ensures buf[..] == Splice(old(buf[..]), start, Unmask(h, secret, first, old(buf[start..end])))
  {
    ghost var was, cipher, k, out := buf[..], buf[start..end], 0, [];
    assert Key(h, secret, first, cipher, 0) == first && Unmasking(h, secret, first, cipher, []);
    EmptySplice(was, start);
    hide Unmasking, Key, XorByte, Unmask, Splice;
    var ptr, cnt, digest := start, 0, first;
    var saved := [];
    while ptr < end
      invariant start <= ptr <= end && 0 <= cnt <= SIG && 0 <= k && ptr == start + 16 * k + cnt && |out| == ptr - start
      invariant buf[..] == Splice(was, start, out) && Unmasking(h, secret, first, cipher, out)
      invariant digest == Key(h, secret, first, cipher, k)
      invariant cnt > 0 && 16 * (k + 1) <= |cipher| ==> saved == cipher[16 * k..16 * (k + 1)]
    {
      SpliceRest(was, start, out, end);
      cnt, digest, saved, k := NextSegment(buf, ptr, end, cnt, digest, saved, h, secret, first, cipher, k);
      UnmaskingSteps(h, secret, first, cipher, out, k, cnt);
      SpliceSet(was, start, out, XorByte(buf[ptr], digest[cnt]));
      assert buf[ptr] == buf[ptr..end][0] == cipher[|out|];
      out := out + [XorByte(buf[ptr], digest[cnt])];
      buf[ptr] := XorByte(buf[ptr], digest[cnt]);
      cnt := cnt + 1;
      ptr := ptr + 1;
    }
    UnmaskingEnds(h, secret, first, cipher, out);
  }

  /** What is left to overwrite is still there. */
  lemma SpliceRest<T>(s: seq<T>, at: nat, w: seq<T>, end: nat)
    requires at + |w| <= end <= |s|
    ensures Splice(s, at, w)[at + |w|..end] == s[at..end][|w|..]
  {
    SliceOfSlice(s, at, end, |w|, end - at);
    SpliceSlice(s, at, w, at + |w|, end);
    assert s[at..end][|w|..] == s[at..end][|w|..end - at];
  }

  lemma SpliceSet<T>(s: seq<T>, at: nat, w: seq<T>, x: T)
    requires at + |w| < |s|
    ensures Splice(s, at, w)[at + |w| := x] == Splice(s, at, w + [x])
  {
  }

  datatype Vector = NoVector | Vector(bytes: seq<byte>)

  /** The length of the AVP whose swapped header stands at `at`. */
  function HostLength(s: seq<byte>, at: nat): nat
    requires at + 2 <= |s|
  {
    GetLe(s, at) % 0x1000
  }

  ghost predicate HiddenInside(s: seq<byte>, at: nat) {
    at + 8 <= |s| && AVP_HDR <= HostLength(s, at) && at + HostLength(s, at) <= |s|
  }

  /** The unmasked part of the hidden AVP at `at`. */
  ghost function PlainAt(s: seq<byte>, at: nat, h: Hash, secret: seq<byte>, vector: seq<byte>): (plain: seq<byte>)
    requires HiddenInside(s, at)
    ensures |plain| == HostLength(s, at) - AVP_HDR
  {
    Unmask(h, secret, FirstDigest(h, GetLe(s, at + 4), secret, vector), s[at + AVP_HDR..at + HostLength(s, at)])
  }

  /** What decryption makes of the hidden AVP whose swapped header stands at `at`. */
  ghost function RevealAt(s: seq<byte>, at: nat, h: Hash, secret: seq<byte>, vector: Vector): Outcome
    requires HiddenInside(s, at)
  {
    if vector.NoVector? then Bad
    else Reveal(h, secret, vector.bytes, GetLe(s, at), GetLe(s, at + 2), GetLe(s, at + 4),
                s[at + AVP_HDR..at + HostLength(s, at)])
  }

  /** The packet afterwards: unmasked, and with the header two bytes further on if
      an AVP came out. */
  ghost function Restored(s: seq<byte>, at: nat, h: Hash, secret: seq<byte>, vector: Vector): seq<byte>
    requires HiddenInside(s, at)
  {
    if vector.NoVector? then s
    else
      var plain := Splice(s, at + AVP_HDR, PlainAt(s, at, h, secret, vector.bytes));
      match RevealAt(s, at, h, secret, vector)
      case Bad => plain
      case Revealed(a) =>
        RevealedFits(s, at, h, secret, vector);
        Splice(plain, at + 2, HostHeader(a.flags * 0x1000 + AVP_HDR + |a.value|, a.vendor, a.attr))
  }

  lemma RevealedFits(s: seq<byte>, at: nat, h: Hash, secret: seq<byte>, vector: Vector)
    requires HiddenInside(s, at) && RevealAt(s, at, h, secret, vector).Revealed?
    ensures var a := RevealAt(s, at, h, secret, vector).avp;
            && a.flags < 16 && AVP_HDR + |a.value| + 2 <= HostLength(s, at) < 0x1000
            && a.vendor == GetLe(s, at + 2) && a.attr == GetLe(s, at + 4)
            && a.value == PlainAt(s, at, h, secret, vector.bytes)[2..2 + |a.value|]
  {
  }

  /** After a successful decryption the plain AVP lies wholly inside the hidden
      one, two bytes on, and nothing else has changed. */
  lemma RestoredHoldsAvp(s: seq<byte>, at: nat, h: Hash, secret: seq<byte>, vector: Vector)
    requires HiddenInside(s, at) && RevealAt(s, at, h, secret, vector).Revealed?
    ensures var a, r, end := RevealAt(s, at, h, secret, vector).avp, Restored(s, at, h, secret, vector),
            at + HostLength(s, at);
            && |r| == |s| && at + 8 + |a.value| <= end
            && r[at + 2..at + 8] == HostHeader(a.flags * 0x1000 + AVP_HDR + |a.value|, a.vendor, a.attr)
            && r[at + 8..at + 8 + |a.value|] == a.value
            && r[..at + 2] == s[..at + 2] && r[end..] == s[end..]
  {
    RevealedFits(s, at, h, secret, vector);
    var a, plain := RevealAt(s, at, h, secret, vector).avp, PlainAt(s, at, h, secret, vector.bytes);
    var head := HostHeader(a.flags * 0x1000 + AVP_HDR + |a.value|, a.vendor, a.attr);
    assert Restored(s, at, h, secret, vector) == Splice(Splice(s, at + AVP_HDR, plain), at + 2, head);
    hide *;
    OverwrittenTwice(s, at, plain, head, |a.value|);
  }

  lemma OverwrittenTwice<T>(s: seq<T>, at: nat, plain: seq<T>, head: seq<T>, n: nat)
    requires |head| == AVP_HDR && at + AVP_HDR + |plain| <= |s| && n + 2 <= |plain|
    ensures var r, end := Splice(Splice(s, at + AVP_HDR, plain), at + 2, head), at + AVP_HDR + |plain|;
            && r[at + 2..at + 8] == head && r[at + 8..at + 8 + n] == plain[2..2 + n]
            && r[..at + 2] == s[..at + 2] && r[end..] == s[end..]
  {
    hide Splice;
    var s1, end := Splice(s, at + AVP_HDR, plain), at + AVP_HDR + |plain|;
    SpliceSlice(s1, at + 2, head, at + 8, at + 8 + n);
    SpliceSlice(s, at + AVP_HDR, plain, at + 8, at + 8 + n);
    SpliceSlice(s1, at + 2, head, 0, at + 2);
    SpliceSlice(s, at + AVP_HDR, plain, 0, at + 2);
    SpliceSlice(s1, at + 2, head, end, |s|);
    SpliceSlice(s, at + AVP_HDR, plain, end, |s|);
  }

  /** Move the header two bytes back, over the length field of the masked part. */
  method RestoreHeader(buf: array<byte>, at: nat, word: u16)
    requires at + 8 <= buf.Length
    modifies buf
    ensures buf[..] == Splice(old(buf[..]), at + 2,
                              HostHeader(word, GetLe(old(buf[..]), at + 2), GetLe(old(buf[..]), at + 4)))
  {
    ghost var s := buf[..];
    ghost var vendor, attr := s[at + 2..at + 4], s[at + 4..at + 6];
    GetLeStored(s, at + 2);
    GetLeStored(s, at + 4);
    hide Splice;
    Store(buf, at + 6, buf[at + 4..at + 6]);
    SpliceSlice(s, at + 6, attr, at + 2, at + 4);
    SpliceAdjacent(s, at + 4, vendor, attr);
    Store(buf, at + 4, buf[at + 2..at + 4]);
    SpliceAdjacent(s, at + 2, Le16(word), vendor + attr);
    Store(buf, at + 2, Le16(word));
    assert HostHeader(word, GetLe(s, at + 2), GetLe(s, at + 4)) == Le16(word) + (vendor + attr);
  }

  /** Reading the header and the length field after unmasking. */
  lemma ReadAfterUnmask(s: seq<byte>, at: nat, plain: seq<byte>)
    requires at + 8 <= |s| && at + AVP_HDR + |plain| <= |s|
    ensures var s1 := Splice(s, at + AVP_HDR, plain);
            && GetLe(s1, at + 2) == GetLe(s, at + 2) && GetLe(s1, at + 4) == GetLe(s, at + 4)
            && (|plain| >= 2 ==> Get16(s1, at + AVP_HDR) == Get16(plain, 0))
  {
  }

  /** Decryption step by step: what is read after unmasking decides the outcome. */
  lemma RestoredInSteps(s: seq<byte>, at: nat, h: Hash, secret: seq<byte>, vector: Vector)
    requires HiddenInside(s, at) && vector.Vector?
    ensures var s1 := Splice(s, at + AVP_HDR, PlainAt(s, at, h, secret, vector.bytes));
            var n, r := Get16(s1, at + AVP_HDR), RevealAt(s, at, h, secret, vector);
            && (r.Revealed? <==> n + 2 <= HostLength(s, at) - AVP_HDR)
            && (r == Bad ==> Restored(s, at, h, secret, vector) == s1)
            && (r.Revealed? ==>
                  var word := ClearHidden(GetLe(s, at) / 0x1000) * 0x1000 + AVP_HDR + n;
                  Restored(s, at, h, secret, vector) ==
                    Splice(s1, at + 2, HostHeader(word, GetLe(s1, at + 2), GetLe(s1, at + 4))))
  {
    ReadAfterUnmask(s, at, PlainAt(s, at, h, secret, vector.bytes));
    hide Splice, GetLe, Get16, Unmask, FirstDigest, ClearHidden, HostHeader;
  }

  /** Put the header before the value, unless the value's length does not fit. */
  method Unwrap(buf: array<byte>, at: nat, olen: nat, flags: nat) returns (ok: bool)
    requires at + 8 <= buf.Length && olen < 0x1000 && flags < 16
    modifies buf
    ensures ok <==> Get16(old(buf[..]), at + AVP_HDR) + 2 <= olen - AVP_HDR
    ensures !ok ==> buf[..] == old(buf[..])
    ensures ok ==>
              var s := old(buf[..]);
              var word := flags * 0x1000 + AVP_HDR + Get16(s, at + AVP_HDR);
              buf[..] == Splice(s, at + 2, HostHeader(word, GetLe(s, at + 2), GetLe(s, at + 4)))
  {
    var len := Get16(buf[..], at + AVP_HDR) + AVP_HDR;
    if len > olen - 2 {
      return false;
    }
    RestoreHeader(buf, at, flags * 0x1000 + len);
    ok := true;
  }

  /** Remove the mask of the AVP at `at`. */
  method UnmaskAvp(buf: array<byte>, at: nat, olen: nat, h: Hash, secret: seq<byte>, vector: seq<byte>)
    requires HiddenInside(buf[..], at) && olen == HostLength(buf[..], at)
    modifies buf
    ensures buf[..] == Splice(old(buf[..]), at + AVP_HDR, PlainAt(old(buf[..]), at, h, secret, vector))
  {
    var attr := GetLe(buf[..], at + 4);
    hide Splice, GetLe, Unmask, FirstDigest;
    UnmaskInPlace(buf, at + AVP_HDR, at + olen, h, secret, FirstDigest(h, attr, secret, vector));
  }

  /** Reveal a hidden AVP in place. */
  method DecryptAvp(buf: array<byte>, at: nat, h: Hash, secret: seq<byte>, vector: Vector) returns (ok: bool)
    requires HiddenInside(buf[..], at)
    modifies buf
    ensures ok <==> RevealAt(old(buf[..]), at, h, secret, vector).Revealed?
    ensures buf[..] == Restored(old(buf[..]), at, h, secret, vector)
  {
    if vector.NoVector? {
      return false;
    }
    RestoredInSteps(buf[..], at, h, secret, vector);
    var word := GetLe(buf[..], at);
    var olen := word % 0x1000;
    assert olen == HostLength(buf[..], at) && word / 0x1000 < 16;
    hide *;
    UnmaskAvp(buf, at, olen, h, secret, vector.bytes);
    ok := Unwrap(buf, at, olen, ClearHidden(word / 0x1000));
  }
}
