/** Data packets: the variable header a sender puts before a payload, and the receiver that
    swaps it to host order, checks it and expands it in place to its full size, over the
    bytes it is still reading (section 3.1 of RFC 2661). Host words are little-endian. */
module Payload {
  import opened Words
  import opened Splicing

  const FULL := 14
  const VER_L2TP := 2
  const FUDGE := 2

  // ----- the first word -----

  predicate TBit(v: u16) { v >= 0x8000 }
  predicate LBit(v: u16) { (v / 0x4000) % 2 == 1 }
  predicate FBit(v: u16) { (v / 0x800) % 2 == 1 }
  predicate SBit(v: u16) { (v / 0x200) % 2 == 1 }

  /** Bytes of the full header that a packet leaves out. */
  function Missing(v: u16): (n: nat)
    ensures n <= 8 && n % 2 == 0
  {
    (if LBit(v) then 0 else 2) + (if FBit(v) then 0 else 4) + (if SBit(v) then 0 else 2)
  }

  function First(l: bool, f: bool): (v: u16)
    ensures LBit(v) == l && FBit(v) == f && !SBit(v) && !TBit(v) && v % 8 == VER_L2TP
    ensures GetLe(Be16(v), 0) < 0x8000
  {
    (if l then 0x4000 else 0) + (if f then 0x800 else 0) + VER_L2TP
  }

  // ----- the sender -----

  /** What a call tells the sender of its packets. */
  datatype Sender = Sender(lbit: bool, fbit: bool, tid: u16, cid: u16, ns: u16, nr: u16)

  function HeaderSize(c: Sender): (n: nat)
    ensures n == FULL - Missing(First(c.lbit, c.fbit)) && 6 <= n <= 12
  {
    6 + (if c.lbit then 2 else 0) + (if c.fbit then 4 else 0)
  }

  /** The first word and, if asked for, the length of the packet. */
  function Front(c: Sender, n: nat): (h: seq<byte>)
    ensures |h| == if c.lbit then 4 else 2
  {
    Be16(First(c.lbit, c.fbit)) + (if c.lbit then Be16((HeaderSize(c) + n) % 0x1_0000) else [])
  }

  function Ids(c: Sender): (h: seq<byte>)
    ensures |h| == if c.fbit then 8 else 4
  {
    Be16(c.tid) + Be16(c.cid) + (if c.fbit then Be16(c.ns) + Be16(c.nr) else [])
  }

  function SendHeader(c: Sender, n: nat): (h: seq<byte>)
    ensures |h| == HeaderSize(c)
  {
    Front(c, n) + Ids(c)
  }

  function Packet(c: Sender, payload: seq<byte>): seq<byte> {
    SendHeader(c, |payload|) + payload
  }

  /** Put the header right before the payload; `start` moves back to it. */
  method AddPayloadHdr(data: array<byte>, start: nat, len: nat, c: Sender) returns (start1: nat, len1: nat)
    requires FULL <= start && start + len <= data.Length
    modifies data
    ensures start1 + HeaderSize(c) == start && len1 == HeaderSize(c) + len
    ensures data[start1..start1 + len1] == Packet(c, old(data[start..start + len]))
  {
    hide Be16, First, Front, Ids;
    len1 := HeaderSize(c) + len;
    start1 := start - HeaderSize(c);
    ghost var all := data[..];
    var p := StoreFront(data, start1, start, len, c);
    StoreIds(data, start1, p, start, c);
    Behind(data[..], all, start1, start, len, SendHeader(c, len));
  }

  lemma Behind(now: seq<byte>, was: seq<byte>, start1: nat, start: nat, len: nat, header: seq<byte>)
    requires |now| == |was| && start1 + |header| == start && start + len <= |now|
    requires now[start1..start] == header && now[start..] == was[start..]
    ensures now[start1..start + len] == header + was[start..start + len]
  {
    assert now[start..start + len] == now[start..][..len] && was[start..start + len] == was[start..][..len];
    assert now[start1..start + len] == now[start1..start] + now[start..start + len];
  }

  method StoreFront(data: array<byte>, start1: nat, ghost start: nat, len: nat, c: Sender) returns (p: nat)
    requires start1 + HeaderSize(c) == start <= data.Length
    modifies data
    ensures p == start1 + |Front(c, len)| && data[start1..p] == Front(c, len) && data[start..] == old(data[start..])
  {
    p := StoreNext(data, start1, start1, start, Be16(First(c.lbit, c.fbit)));
    if c.lbit {
      p := StoreNext(data, start1, p, start, Be16((HeaderSize(c) + len) % 0x1_0000));
    }
  }

  method StoreIds(data: array<byte>, ghost start1: nat, p0: nat, ghost start: nat, c: Sender)
    requires start1 <= p0 && p0 + |Ids(c)| == start <= data.Length
    modifies data
    ensures data[start1..start] == old(data[start1..p0]) + Ids(c) && data[start..] == old(data[start..])
  {
    hide Be16;
    var p := StoreNext(data, start1, p0, start, Be16(c.tid));
    p := StoreNext(data, start1, p, start, Be16(c.cid));
    if c.fbit {
      p := StoreNext(data, start1, p, start, Be16(c.ns));
      p := StoreNext(data, start1, p, start, Be16(c.nr));
    }
  }

  /** Store one more word of a header that began at `from`; what is behind `end` stays. */
  method StoreNext(data: array<byte>, ghost from: nat, p: nat, ghost end: nat, word: seq<byte>) returns (next: nat)
    requires |word| == 2 && from <= p && p + 2 <= end <= data.Length
    modifies data
    ensures next == p + 2 && data[from..next] == old(data[from..p]) + word && data[end..] == old(data[end..])
  {
    data[p] := word[0];
    data[p + 1] := word[1];
    next := p + 2;
  }

  // ----- byte order -----

  function Swap(s: seq<byte>): (r: seq<byte>)
    requires |s| % 2 == 0
    ensures |r| == |s|
  {
    if s == [] then [] else [s[1], s[0]] + Swap(s[2..])
  }

  lemma {:induction false} SwapWord(s: seq<byte>, k: nat)
    requires |s| % 2 == 0 && k + 2 <= |s| && k % 2 == 0
    ensures GetLe(Swap(s), k) == Get16(s, k)
  {
    if k > 0 {
      SwapWord(s[2..], k - 2);
    }
  }

  /** The bytes whose order is changed. The test for a control header looks at the word
      before its order is changed. */
  function FixSize(s: seq<byte>): (n: nat)
    requires |s| >= FULL
    ensures n <= FULL && n % 2 == 0
  {
    if TBit(GetLe(s, 0)) then 12 else FULL - Missing(Get16(s, 0))
  }

  function Fixed(s: seq<byte>): (r: seq<byte>)
    requires |s| >= FULL
    ensures |r| == |s|
  {
    Swap(s[..FixSize(s)]) + s[FixSize(s)..]
  }

  lemma {:induction false} SwapNext(s: seq<byte>, k: nat)
    requires |s| % 2 == 0 && k % 2 == 0 && k + 2 <= |s|
    ensures Swap(s[..k + 2]) == Swap(s[..k]) + [s[k + 1], s[k]]
    decreases |s|
  {
    if k == 0 {
      assert s[..2][2..] == s[..0];
    } else {
      SwapNext(s[2..], k - 2);
      assert s[..k + 2][2..] == s[2..][..k] && s[..k][2..] == s[2..][..k - 2];
    }
  }

  method Swaps(data: array<byte>, start: nat, n: nat)
    requires start + n <= data.Length && n % 2 == 0
    modifies data
    ensures data[..] == Splice(old(data[..]), start, Swap(old(data[start..start + n])))
  {
    ghost var was, s := data[..], data[start..start + n];
    var k := 0;
    assert SwappedSoFar(data[..], was, start, s, k);
    hide Swap, Splice, SwappedSoFar;
    while k < n
      invariant k <= n && k % 2 == 0 && SwappedSoFar(data[..], was, start, s, k)
    {
      SwapStep(data[..], was, start, s, k);
      SwapTwo(data, start + k);
      k := k + 2;
    }
    SwapEnd(data[..], was, start, s, k);
  }

  /** The first `k` bytes have been put in order. */
  ghost predicate SwappedSoFar(now: seq<byte>, was: seq<byte>, start: nat, s: seq<byte>, k: nat) {
    && |s| % 2 == 0 && k % 2 == 0 && k <= |s| && start + |s| <= |was| == |now| && s == was[start..start + |s|]
    && now == Splice(was, start, Swap(s[..k]))
  }

  lemma SwapEnd(now: seq<byte>, was: seq<byte>, start: nat, s: seq<byte>, k: nat)
    requires SwappedSoFar(now, was, start, s, k) && k == |s|
    ensures now == Splice(was, start, Swap(s))
  {
    assert s[..k] == s;
  }

  method SwapTwo(data: array<byte>, i: nat)
    requires i + 2 <= data.Length
    modifies data
    ensures data[..] == old(data[..])[i := old(data[..])[i + 1]][i + 1 := old(data[..])[i]]
  {
    data[i], data[i + 1] := data[i + 1], data[i];
  }

  lemma SwapStep(now: seq<byte>, was: seq<byte>, start: nat, s: seq<byte>, k: nat)
    requires SwappedSoFar(now, was, start, s, k) && k + 2 <= |s|
    ensures SwappedSoFar(now[start + k := now[start + k + 1]][start + k + 1 := now[start + k]], was, start, s, k + 2)
  {
    SwapNext(s, k);
    hide Swap;
    assert now[start + k] == s[k] && now[start + k + 1] == s[k + 1];
    var next := now[start + k := now[start + k + 1]][start + k + 1 := now[start + k]];
    assert next == was[..start] + (Swap(s[..k]) + [s[k + 1], s[k]]) + was[start + k + 2..];
  }

  method FixHdr(data: array<byte>, start: nat)
    requires start + FULL <= data.Length
    modifies data
    ensures data[..start] == old(data[..start]) && data[start..] == Fixed(old(data[start..]))
  {
    ghost var s := data[start..];
    var ver, raw := Get16(data[start..start + 2], 0), GetLe(data[start..start + 2], 0);
    var n := if TBit(raw) then 12 else FULL - Missing(ver);
    assert n == FixSize(s) && data[start..start + n] == s[..n];
    hide Swap, Missing, TBit, FixSize, Splice;
    ghost var was := data[..];
    Swaps(data, start, n);
    Tail(was, start, Swap(s[..n]));
    assert data[..start] == data[..][..start] && data[start..] == data[..][start..];
    assert was[start..][n..] == was[start + n..] && s == was[start..];
  }

  lemma Tail(was: seq<byte>, start: nat, w: seq<byte>)
    requires start + |w| <= |was|
    ensures Splice(was, start, w)[..start] == was[..start]
    ensures Splice(was, start, w)[start..] == w + was[start + |w|..]
  {
  }

  /** Tunnel and call a packet is for. */
  method Extract(data: array<byte>, start: nat) returns (tunnel: u16, call: u16)
    requires start + FULL <= data.Length
    ensures (tunnel, call) == Addressee(data[start..])
  {
    var s := data[start..start + FULL];
    assert forall k :: 0 <= k < FULL ==> s[k] == data[start..][k];
    if LBit(GetLe(s, 0)) {
      return GetLe(s, 4), GetLe(s, 6);
    }
    return GetLe(s, 2), GetLe(s, 4);
  }

  function Addressee(s: seq<byte>): (u16, u16)
    requires |s| >= FULL
  {
    if LBit(GetLe(s, 0)) then (GetLe(s, 4), GetLe(s, 6)) else (GetLe(s, 2), GetLe(s, 4))
  }

  // ----- the receiver -----

  datatype Header = Header(ver: u16, length: u16, tid: u16, cid: u16, ns: u16, nr: u16, offset: u16)

  function HostBytes(h: Header): (s: seq<byte>)
    ensures |s| == FULL
  {
    Le16(h.ver) + Le16(h.length) + Le16(h.tid) + Le16(h.cid) + Le16(h.ns) + Le16(h.nr) + Le16(h.offset)
  }

  /** Sequence numbers of a call's data. */
  datatype Flow = Flow(seqNum: u16, recNum: u16)

  /** The full header: fields that are there are read, the others filled in. */
  function FullHeader(s: seq<byte>, len: nat, flow: Flow): Header
    requires |s| >= FULL
  {
    var v := GetLe(s, 0);
    var l := if LBit(v) then 2 else 0;
    var f := if FBit(v) then 4 else 0;
    Header(v, if LBit(v) then GetLe(s, 2) else (len + Missing(v)) % 0x1_0000, GetLe(s, 2 + l), GetLe(s, 4 + l),
           if FBit(v) then GetLe(s, 6 + l) else flow.recNum, if FBit(v) then GetLe(s, 8 + l) else flow.seqNum,
           if SBit(v) then GetLe(s, 6 + l + f) else 0)
  }

  function PayloadOk(s: seq<byte>, len: nat): bool
    requires |s| >= FULL
  {
    var v := GetLe(s, 0);
    && len >= 6 && !TBit(v) && v % 8 == VER_L2TP
    && (if LBit(v) then len == GetLe(s, 2) else len >= FULL - Missing(v))
  }

  method CheckPayload(data: array<byte>, start: nat, len: nat) returns (ok: bool)
    requires start + FULL <= data.Length
    ensures ok == PayloadOk(data[start..], len)
  {
    var s := data[start..start + FULL];
    assert forall k :: 0 <= k < FULL ==> s[k] == data[start..][k];
    if len < 6 {
      return false;
    }
    var v := GetLe(s, 0);
    if TBit(v) {
      return false;
    }
    var need := 6;
    if LBit(v) {
      need := need + 2;
    }
    if FBit(v) {
      need := need + 4;
    }
    if SBit(v) {
      need := need + 2;
    }
    if v % 8 != VER_L2TP {
      return false;
    }
    if len < need && !LBit(v) {
      return false;
    }
    return !(len != GetLe(s, 2) && LBit(v));
  }

  // ----- expansion over the bytes being read -----

  /** The new header has been written up to `done`; everything behind it is as it was. */
  ghost predicate Expanding(now: seq<byte>, was: seq<byte>, n: nat, done: seq<byte>) {
    |now| == |was| && n + |done| <= |was| && now == Splice(was, n, done)
  }

  /** A word behind the written part is read as it was. */
  lemma ReadBehind(now: seq<byte>, was: seq<byte>, n: nat, done: seq<byte>, i: nat)
    requires Expanding(now, was, n, done) && n + |done| <= i && i + 2 <= |was|
    ensures GetLe(now, i) == GetLe(was, i)
  {
    assert now[i] == was[i] && now[i + 1] == was[i + 1];
  }

  method WriteNext(data: array<byte>, ghost was: seq<byte>, n: nat, ghost done: seq<byte>, at: nat, x: u16)
    requires Expanding(data[..], was, n, done) && at == n + |done| && at + 2 <= data.Length
    modifies data
    ensures Expanding(data[..], was, n, done + Le16(x))
  {
    hide Splice;
    Store(data, at, Le16(x));
    SpliceAdjacent(was, n, done, Le16(x));
  }

  /** Two words, the second one first. */
  method WriteTwo(data: array<byte>, ghost was: seq<byte>, n: nat, ghost done: seq<byte>, at: nat, x: u16, y: u16)
    requires Expanding(data[..], was, n, done) && at == n + |done| && at + 4 <= data.Length
    modifies data
    ensures Expanding(data[..], was, n, done + Le16(x) + Le16(y))
  {
    hide Splice;
    Store(data, at + 2, Le16(y));
    Store(data, at, Le16(x));
    SpliceAdjacent(Splice(was, n, done), at, Le16(x), Le16(y));
    SpliceAdjacent(was, n, done, Le16(x) + Le16(y));
    assert done + (Le16(x) + Le16(y)) == done + Le16(x) + Le16(y);
  }

  function NewStart(s: seq<byte>, start: nat): int
    requires |s| >= start + FULL
  {
    start - Missing(GetLe(s, start))
  }

  /** The packet after its header has been expanded. */
  function Expanded(s: seq<byte>, start: nat, len: nat, flow: Flow): (r: seq<byte>)
    requires |s| >= start + FULL && NewStart(s, start) >= 0
    ensures |r| == |s|
  {
    Splice(s, NewStart(s, start), HostBytes(FullHeader(s[start..], len, flow)))
  }

  lemma FullHeaderAt(s: seq<byte>, start: nat, len: nat, flow: Flow)
    requires |s| >= start + FULL
    ensures forall k :: 0 <= k <= FULL - 2 ==> GetLe(s[start..], k) == GetLe(s, start + k)
  {
    assert forall k :: 0 <= k < FULL ==> s[start..][k] == s[start + k];
  }

  /** A header that lacks nothing stays as it is. */
  lemma NothingMissing(s: seq<byte>, start: nat, len: nat, flow: Flow)
    requires |s| >= start + FULL && Missing(GetLe(s, start)) == 0
    ensures Expanded(s, start, len, flow) == s
  {
    var p := s[start..];
    FullHeaderAt(s, start, len, flow);
    assert p[..FULL] == p[0..2] + p[2..4] + p[4..6] + p[6..8] + p[8..10] + p[10..12] + p[12..14];
    GetLeStored(p, 0);
    GetLeStored(p, 2);
    GetLeStored(p, 4);
    GetLeStored(p, 6);
    GetLeStored(p, 8);
    GetLeStored(p, 10);
    GetLeStored(p, 12);
    hide Le16, GetLe;
    assert HostBytes(FullHeader(p, len, flow)) == p[..FULL];
    hide HostBytes, FullHeader;
    assert s == s[..start] + p[..FULL] + s[start + FULL..];
  }

  /** Copy a word that has not been written over yet. */
  method CopyNext(data: array<byte>, ghost was: seq<byte>, n: nat, ghost done: seq<byte>, at: nat, from: nat)
    requires Expanding(data[..], was, n, done) && at == n + |done| <= from && from + 2 <= data.Length
    modifies data
    ensures Expanding(data[..], was, n, done + Le16(GetLe(was, from)))
  {
    ReadBehind(data[..], was, n, done, from);
    hide Expanding, Le16, GetLe;
    WriteNext(data, was, n, done, at, GetLe(data[..], from));
  }

  function FrontBytes(h: Header): seq<byte> {
    Le16(h.ver) + Le16(h.length) + Le16(h.tid) + Le16(h.cid)
  }

  /** The header of the packet at `start` in a buffer. */
  function HeaderAt(s: seq<byte>, start: nat, len: nat, flow: Flow): Header
    requires |s| >= start + FULL
  {
    FullHeader(s[start..], len, flow)
  }

  /** First word, length and the two identifiers. */
  method ExpandFront(data: array<byte>, ghost was: seq<byte>, start: nat, len: nat, n: nat, v: u16, ghost flow: Flow)
    requires |was| >= start + FULL && v == GetLe(was, start) && n + Missing(v) == start && Missing(v) > 0
    requires Expanding(data[..], was, n, [])
    modifies data
    ensures Expanding(data[..], was, n, FrontBytes(HeaderAt(was, start, len, flow)))
  {
    ghost var h := HeaderAt(was, start, len, flow);
    var l := if LBit(v) then 2 else 0;
    FullHeaderAt(was, start, len, flow);
    assert h.ver == v && h.tid == GetLe(was, start + 2 + l) && h.cid == GetLe(was, start + 4 + l);
    assert h.length == if LBit(v) then GetLe(was, start + 2) else (len + Missing(v)) % 0x1_0000;
    assert n + 4 <= start + 2 + l && |data[..]| == |was|;
    hide Le16, GetLe, Expanding, FullHeader, HeaderAt;
    WriteNext(data, was, n, [], n, v);
    ghost var done := [] + Le16(v);
    if LBit(v) {
      CopyNext(data, was, n, done, n + 2, start + 2);
    } else {
      WriteNext(data, was, n, done, n + 2, (len + Missing(v)) % 0x1_0000);
    }
    hide Missing, LBit;
    done := done + Le16(h.length);
    CopyNext(data, was, n, done, n + 4, start + 2 + l);
    done := done + Le16(h.tid);
    CopyNext(data, was, n, done, n + 6, start + 4 + l);
    assert done + Le16(h.cid) == FrontBytes(h);
  }

  /** Sequence numbers, which are filled in when the packet has none. */
  method ExpandNumbers(data: array<byte>, ghost was: seq<byte>, start: nat, ghost len: nat, n: nat, v: u16, flow: Flow)
    requires |was| >= start + FULL && v == GetLe(was, start) && n + Missing(v) == start && Missing(v) > 0
    requires Expanding(data[..], was, n, FrontBytes(HeaderAt(was, start, len, flow)))
    modifies data
    ensures var h := HeaderAt(was, start, len, flow);
            Expanding(data[..], was, n, FrontBytes(h) + Le16(h.ns) + Le16(h.nr))
  {
    ghost var h := HeaderAt(was, start, len, flow);
    var l := if LBit(v) then 2 else 0;
    FullHeaderAt(was, start, len, flow);
    assert FBit(v) ==> h.ns == GetLe(was, start + 6 + l) && h.nr == GetLe(was, start + 8 + l);
    assert !FBit(v) ==> h.ns == flow.recNum && h.nr == flow.seqNum;
    assert n + 8 <= start + 6 + l && |data[..]| == |was|;
    ghost var done := FrontBytes(h);
    assert |done| == 8;
    hide Le16, GetLe, Expanding, FullHeader, HeaderAt, FrontBytes, Missing, LBit;
    if FBit(v) {
      CopyNext(data, was, n, done, n + 8, start + 6 + l);
      CopyNext(data, was, n, done + Le16(h.ns), n + 10, start + 8 + l);
    } else {
      WriteTwo(data, was, n, done, n + 8, flow.recNum, flow.seqNum);
    }
  }

  method ExpandOffset(data: array<byte>, ghost was: seq<byte>, start: nat, ghost len: nat, n: nat, v: u16,
                      ghost flow: Flow)
    requires |was| >= start + FULL && v == GetLe(was, start) && n + Missing(v) == start && Missing(v) > 0
    requires var h := HeaderAt(was, start, len, flow);
             Expanding(data[..], was, n, FrontBytes(h) + Le16(h.ns) + Le16(h.nr))
    modifies data
    ensures Expanding(data[..], was, n, HostBytes(HeaderAt(was, start, len, flow)))
  {
    ghost var h := HeaderAt(was, start, len, flow);
    var at := start + 6 + (if LBit(v) then 2 else 0) + (if FBit(v) then 4 else 0);
    FullHeaderAt(was, start, len, flow);
    assert h.offset == if SBit(v) then GetLe(was, at) else 0;
    assert SBit(v) ==> n + 12 <= at && at + 2 <= start + FULL;
    ghost var done := FrontBytes(h) + Le16(h.ns) + Le16(h.nr);
    assert |done| == 12 && |data[..]| == |was| && done + Le16(h.offset) == HostBytes(h);
    hide Le16, GetLe, Expanding, FullHeader, HeaderAt, FrontBytes, HostBytes, Missing, LBit, FBit;
    if SBit(v) {
      CopyNext(data, was, n, done, n + 12, at);
    } else {
      WriteNext(data, was, n, done, n + 12, 0);
    }
  }

  /** Expand the header in place: each word is read before anything is written over it. */
  method ExpandHeader(data: array<byte>, start: nat, len: nat, flow: Flow) returns (ok: bool)
    requires start + FULL <= data.Length
    modifies data
    ensures ok <==> NewStart(old(data[..]), start) >= 0
    ensures ok ==> data[..] == Expanded(old(data[..]), start, len, flow)
    ensures !ok ==> data[..] == old(data[..])
  {
    ghost var was := data[..];
    var v := GetLe(data[..], start);
    var missing := Missing(v);
    if missing == 0 {
      NothingMissing(was, start, len, flow);
      return true;
    }
    if start < missing {
      return false;
    }
    var n := start - missing;
    assert Expanding(data[..], was, n, []);
    assert Expanded(was, start, len, flow) == Splice(was, n, HostBytes(HeaderAt(was, start, len, flow)));
    hide GetLe, Expanding, HeaderAt, FrontBytes, HostBytes, Missing, Expanded, Splice;
    ExpandFront(data, was, start, len, n, v, flow);
    ExpandNumbers(data, was, start, len, n, v, flow);
    ExpandOffset(data, was, start, len, n, v, flow);
    ExpandingEnd(data[..], was, n, HostBytes(HeaderAt(was, start, len, flow)));
    ok := true;
  }

  lemma ExpandingEnd(now: seq<byte>, was: seq<byte>, n: nat, done: seq<byte>)
    requires Expanding(now, was, n, done)
    ensures n + |done| <= |was| && now == Splice(was, n, done)
  {
  }

  // ----- what becomes of a packet -----

  datatype Verdict = Stale | Taken(flow: Flow)

  /** A packet is taken when its number is the next one to be sent, or not older than the
      last one received and little newer. */
  function Sequence(ns: u16, flow: Flow): Verdict {
    if ns == flow.seqNum then Taken(flow.(recNum := (flow.recNum + 1) % 0x1_0000))
    else if (ns < flow.recNum && flow.recNum - ns < 32768) || (ns > flow.recNum && flow.recNum - ns > 32768) then Stale
    else if ns <= flow.recNum + FUDGE then Taken(flow.(recNum := ns))
    else Stale
  }

  /** Lengths are of type size_t, here of 64 bits, and wrap. */
  const SIZE_RANGE := 0x1_0000_0000_0000_0000

  /** `OffsetBeyond`: the offset points past the packet, and the length left has wrapped. */
  datatype Outcome =
    | Refused(flow: Flow)
    | Delivered(bytes: seq<byte>, flow: Flow)
    | ZeroLength(flow: Flow)
    | OffsetBeyond(length: nat, flow: Flow)

  /** What is left of an expanded packet of `total` bytes at `n`. */
  function Settle(r: seq<byte>, n: nat, total: nat, offset: u16, flow: Flow): Outcome
    requires n + total <= |r|
  {
    if total < FULL then Refused(flow)
    else if total == FULL then ZeroLength(flow.(recNum := (flow.recNum - 1) % 0x1_0000))
    else if FULL + offset > total then OffsetBeyond((total - FULL - offset) % SIZE_RANGE, flow)
    else Delivered(r[n + FULL + offset..n + total], flow)
  }

  /** The packet of `len` bytes at `start`, already in host order. */
  function Receive(s: seq<byte>, start: nat, len: nat, flow: Flow): Outcome
    requires start + FULL <= |s| && start + len <= |s|
  {
    var n := NewStart(s, start);
    var total := len + start - n;
    if !PayloadOk(s[start..], len) || n < 0 then Refused(flow)
    else
      var h := HeaderAt(s, start, len, flow);
      match Sequence(h.ns, flow)
      case Stale => Refused(flow)
      case Taken(flow1) => Settle(Expanded(s, start, len, flow), n, total, h.offset, flow1)
  }

  /** The receiving side of a call's data. */
  class DataCall {
    var flow: Flow
    var pLr: int

    constructor ()
      ensures flow == Flow(0, 0)
    {
      flow, pLr := Flow(0, 0), -1;
    }

    method HandlePayload(data: array<byte>, start: nat, len: nat) returns (o: Outcome)
      requires start + FULL <= data.Length && start + len <= data.Length
      modifies this, data
      ensures o == Receive(old(data[..]), start, len, old(flow)) && flow == o.flow
    {
      hide Settle, Sequence, HeaderAt, Expanded, PayloadOk;
      ghost var was := data[..];
      assert data[start..] == was[start..];
      var fine := CheckPayload(data, start, len);
      if !fine {
        return Refused(flow);
      }
      var v := GetLe(data[..], start);
      hide GetLe;
      var ok := ExpandHeader(data, start, len, flow);
      if !ok {
        return Refused(flow);
      }
      var n, total := start - Missing(v), len + Missing(v);
      ExpandedHeader(was, start, len, flow);
      var ns, nr, offset := GetLe(data[..], n + 8), GetLe(data[..], n + 10), GetLe(data[..], n + 12);
      var verdict := Sequence(ns, flow);
      hide Missing;
      if verdict.Stale? {
        return Refused(flow);
      }
      flow, pLr := verdict.flow, nr;
      o := Deliver(data, n, total, offset);
    }

    /** Skip the header and the offset. */
    method Deliver(data: array<byte>, n: nat, total: nat, offset: u16) returns (o: Outcome)
      requires n + total <= data.Length
      modifies this`flow
      ensures o == Settle(data[..], n, total, offset, old(flow)) && flow == o.flow
    {
      if total < FULL {
        return Refused(flow);
      }
      if total == FULL {
        flow := flow.(recNum := (flow.recNum - 1) % 0x1_0000);
        return ZeroLength(flow);
      }
      if FULL + offset > total {
        return OffsetBeyond((total - FULL - offset) % SIZE_RANGE, flow);
      }
      assert data[n + FULL + offset..n + total] == data[..][n + FULL + offset..n + total];
      return Delivered(data[n + FULL + offset..n + total], flow);
    }
  }

  lemma LeRoundTrip(x: u16, rest: seq<byte>)
    ensures GetLe(Le16(x) + rest, 0) == x
  {
  }

  lemma HostWords(h: Header)
    ensures GetLe(HostBytes(h), 8) == h.ns && GetLe(HostBytes(h), 10) == h.nr && GetLe(HostBytes(h), 12) == h.offset
  {
    var b := HostBytes(h);
    assert b[8..] == Le16(h.ns) + (Le16(h.nr) + Le16(h.offset));
    assert b[10..] == Le16(h.nr) + Le16(h.offset) && b[12..] == Le16(h.offset) + [];
    LeRoundTrip(h.ns, Le16(h.nr) + Le16(h.offset));
    LeRoundTrip(h.nr, Le16(h.offset));
    LeRoundTrip(h.offset, []);
    hide Le16, HostBytes;
    assert b[8] == b[8..][0] && b[9] == b[8..][1] && b[10] == b[10..][0] && b[11] == b[10..][1];
    assert b[12] == b[12..][0] && b[13] == b[12..][1];
  }

  /** The expanded header holds the fields of the full header. */
  lemma ExpandedHeader(s: seq<byte>, start: nat, len: nat, flow: Flow)
    requires |s| >= start + FULL && NewStart(s, start) >= 0
    ensures var r, n, h := Expanded(s, start, len, flow), NewStart(s, start), HeaderAt(s, start, len, flow);
            && n + FULL <= |s|
            && GetLe(r, n + 8) == h.ns && GetLe(r, n + 10) == h.nr && GetLe(r, n + 12) == h.offset
  {
    var n, h := NewStart(s, start), HeaderAt(s, start, len, flow);
    var r := Expanded(s, start, len, flow);
    HostWords(h);
    SpliceSlice(s, n, HostBytes(h), n, n + FULL);
    hide Splice, HostBytes, FullHeader, Missing;
    var b := HostBytes(h);
    assert r[n..n + FULL] == b;
    assert forall k :: n <= k < n + FULL ==> r[k] == r[n..n + FULL][k - n];
  }

  // ----- payloads come out as they went in -----

  lemma WordAt(a: seq<byte>, x: u16, b: seq<byte>)
    ensures Get16(a + Be16(x) + b, |a|) == x
  {
    var s := a + Be16(x) + b;
    assert s[|a|] == Be16(x)[0] && s[|a| + 1] == Be16(x)[1];
  }

  /** The words of the header of an unsequenced packet. */
  lemma SentWords(c: Sender, n: nat)
    requires !c.fbit
    ensures var h := SendHeader(c, n);
            && Get16(h, 0) == First(c.lbit, c.fbit) && GetLe(h, 0) < 0x8000
            && (c.lbit ==> Get16(h, 2) == (8 + n) % 0x1_0000 && Get16(h, 4) == c.tid && Get16(h, 6) == c.cid)
            && (!c.lbit ==> Get16(h, 2) == c.tid && Get16(h, 4) == c.cid)
  {
    var h, v := SendHeader(c, n), Be16(First(c.lbit, c.fbit));
    var t, i := Be16(c.tid), Be16(c.cid);
    WordAt([], First(c.lbit, c.fbit), h[2..]);
    if c.lbit {
      var m := Be16((8 + n) % 0x1_0000);
      assert h == v + m + (t + i) && h == (v + m) + t + i && h == (v + m + t) + i + [] && h == [] + v + h[2..];
      WordAt(v, (8 + n) % 0x1_0000, t + i);
      WordAt(v + m, c.tid, i);
      WordAt(v + m + t, c.cid, []);
    } else {
      assert h == v + t + i && h == (v + t) + i + [] && h == [] + v + h[2..];
      WordAt(v, c.tid, i);
      WordAt(v + t, c.cid, []);
    }
    assert h[0] == v[0] && h[1] == v[1];
  }

  /** The header in host order, with the payload behind it. */
  lemma FixedPacket(c: Sender, payload: seq<byte>, post: seq<byte>)
    requires !c.fbit && |Packet(c, payload) + post| >= FULL
    ensures var q := Packet(c, payload) + post;
            && |q| >= FULL && Fixed(q) == Swap(SendHeader(c, |payload|)) + payload + post
  {
    var h := SendHeader(c, |payload|);
    var q := Packet(c, payload) + post;
    SentWords(c, |payload|);
    assert q[..|h|] == h && q[|h|..] == payload + post;
    assert Get16(q, 0) == Get16(h, 0) && GetLe(q, 0) == GetLe(h, 0);
    hide SendHeader, Swap, Missing;
    assert FixSize(q) == |h|;
  }

  lemma FixedWords(c: Sender, payload: seq<byte>, rest: seq<byte>)
    requires !c.fbit && HeaderSize(c) + |rest| >= FULL
    ensures var s := Swap(SendHeader(c, |payload|)) + rest;
            && |s| >= FULL && GetLe(s, 0) == First(c.lbit, false) && Addressee(s) == (c.tid, c.cid)
            && (c.lbit ==> GetLe(s, 2) == (8 + |payload|) % 0x1_0000)
  {
    var h := SendHeader(c, |payload|);
    var s := Swap(h) + rest;
    SentWords(c, |payload|);
    SwapWord(h, 0);
    SwapWord(h, 2);
    SwapWord(h, 4);
    if c.lbit {
      SwapWord(h, 6);
    }
    hide SendHeader, Swap, Get16;
    assert forall k :: 0 <= k < |h| ==> s[k] == Swap(h)[k];
  }

  lemma ExpandedTail(s: seq<byte>, start: nat, len: nat, flow: Flow)
    requires start + FULL <= |s| && NewStart(s, start) >= 0 && start + len <= |s|
    requires start + len >= NewStart(s, start) + FULL
    ensures Expanded(s, start, len, flow)[NewStart(s, start) + FULL..start + len]
            == s[NewStart(s, start) + FULL..start + len]
  {
    var n := NewStart(s, start);
    SpliceSlice(s, n, HostBytes(FullHeader(s[start..], len, flow)), n + FULL, start + len);
  }

  /** An unsequenced data packet is for the call it was sent to, is never refused, whatever
      the receiver has counted so far, and gives back the payload. */
  lemma PayloadSurvives(c: Sender, payload: seq<byte>, pre: seq<byte>, post: seq<byte>, flow: Flow)
    requires !c.fbit && payload != [] && |Packet(c, payload)| < 0x1_0000 && |pre| >= 8
    requires |Packet(c, payload) + post| >= FULL
    ensures var fixed, len := Fixed(Packet(c, payload) + post), |Packet(c, payload)|;
            && Addressee(fixed) == (c.tid, c.cid)
            && var o := Receive(pre + fixed, |pre|, len, flow);
               o.Delivered? && o.bytes == payload
  {
    var h := SendHeader(c, |payload|);
    var fixed, len, start := Fixed(Packet(c, payload) + post), |Packet(c, payload)|, |pre|;
    assert |h| == HeaderSize(c) && len == HeaderSize(c) + |payload|;
    hide SendHeader, Swap, Fixed, Receive, Addressee, First, GetLe, Missing;
    FixedPacket(c, payload, post);
    assert fixed == Swap(h) + (payload + post);
    FixedWords(c, payload, payload + post);
    var s := pre + fixed;
    assert s[start..] == fixed;
    assert s[start + |h|..start + len] == payload;
    GetLeOffset(s, start);
    DeliveredWhole(s, c, payload, start, len, flow);
  }

  lemma GetLeOffset(s: seq<byte>, start: nat)
    requires start + 2 <= |s|
    ensures GetLe(s[start..], 0) == GetLe(s, start)
  {
  }

  lemma DeliveredWhole(s: seq<byte>, c: Sender, payload: seq<byte>, start: nat, len: nat, flow: Flow)
    requires !c.fbit && payload != [] && len == HeaderSize(c) + |payload| < 0x1_0000 && start >= 8
    requires start + FULL <= |s| && start + len <= |s|
             && GetLe(s, start) == GetLe(s[start..], 0) == First(c.lbit, false)
    requires c.lbit ==> GetLe(s[start..], 2) == len
    requires s[start + HeaderSize(c)..start + len] == payload
    ensures var o := Receive(s, start, len, flow); o.Delivered? && o.bytes == payload
  {
    var v := First(c.lbit, false);
    assert Missing(v) == FULL - HeaderSize(c);
    assert PayloadOk(s[start..], len);
    var n, h := NewStart(s, start), HeaderAt(s, start, len, flow);
    assert n + FULL == start + HeaderSize(c) && h.ns == flow.recNum && h.offset == 0;
    assert Sequence(h.ns, flow).Taken?;
    ExpandedTail(s, start, len, flow);
  }

  // ----- the end of the receive buffer -----

  const MAX_RECV_SIZE := 4096
  const PAYLOAD_BUF := 10  // bytes in front of a received packet

  /** Where two check bytes behind the packet are stored, and how long a payload can be: both
      bytes are inside the buffer exactly if the packet has at most 4084 bytes. */
  lemma CheckBytesInside(s: seq<byte>, len: nat, flow: Flow)
    requires |s| == MAX_RECV_SIZE && PAYLOAD_BUF + len <= |s| && Receive(s, PAYLOAD_BUF, len, flow).Delivered?
    ensures var n, h := NewStart(s, PAYLOAD_BUF), HeaderAt(s, PAYLOAD_BUF, len, flow);
            var total, bytes := PAYLOAD_BUF + len - n, Receive(s, PAYLOAD_BUF, len, flow).bytes;
            && n >= 0 && FULL + h.offset <= total
            && bytes == Expanded(s, PAYLOAD_BUF, len, flow)[n + FULL + h.offset..n + total]
            && (n + total + 2 <= |s| <==> len <= 4084) && |bytes| <= len - 6 <= 4080
  {
    hide PayloadOk, HeaderAt, Expanded, Sequence;
  }

  /** And longer ones are received: 4085 bytes with the shortest header. */
  lemma LongPacketDelivered(tid: u16, cid: u16, payload: seq<byte>, pre: seq<byte>, post: seq<byte>, flow: Flow)
    requires |payload| == 4079 && |pre| == PAYLOAD_BUF && |post| == 1
    ensures var c := Sender(false, false, tid, cid, 0, 0);
            && |Packet(c, payload)| == 4085
            && var s := pre + Fixed(Packet(c, payload) + post);
               && |s| == MAX_RECV_SIZE && Receive(s, PAYLOAD_BUF, 4085, flow).Delivered?
               && Receive(s, PAYLOAD_BUF, 4085, flow).bytes == payload
  {
    var c := Sender(false, false, tid, cid, 0, 0);
    assert |Packet(c, payload)| == 4085;
    hide Packet, Fixed, Receive;
    PayloadSurvives(c, payload, pre, post, flow);
  }
}
