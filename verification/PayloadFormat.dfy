/** Data packets laid out field by field as section 3.1 of RFC 2661 has them, with every
    combination of optional fields, and what the receiver makes of them. */
module PayloadFormat {
  import opened Words
  import opened Splicing
  import opened Payload

  /** A header: which optional fields it has, and all its fields. */
  datatype Fields = Fields(hasLength: bool, hasNumbers: bool, hasOffset: bool, priority: bool,
                           length: u16, tid: u16, cid: u16, ns: u16, nr: u16, offset: u16)

  function FlagsAndVersion(x: Fields): u16 {
    (if x.hasLength then 0x4000 else 0) + (if x.hasNumbers then 0x0800 else 0) + (if x.hasOffset then 0x0200 else 0)
    + (if x.priority then 0x0100 else 0) + 2
  }

  function Layout(x: Fields): seq<u16> {
    [FlagsAndVersion(x)] + (if x.hasLength then [x.length] else []) + [x.tid, x.cid]
    + (if x.hasNumbers then [x.ns, x.nr] else []) + (if x.hasOffset then [x.offset] else [])
  }

  /** Words in network order. */
  function Bytes(ws: seq<u16>): (s: seq<byte>)
    ensures |s| == 2 * |ws|
  {
    if ws == [] then [] else Be16(ws[0]) + Bytes(ws[1..])
  }

  /** A header with anything behind it, on the wire and in host order. */
  function OnWire(x: Fields, rest: seq<byte>): (s: seq<byte>)
    ensures |s| == 2 * |Layout(x)| + |rest|
  {
    Bytes(Layout(x)) + rest
  }

  function InHost(x: Fields, rest: seq<byte>): (s: seq<byte>)
    ensures |s| == 2 * |Layout(x)| + |rest|
  {
    Swap(Bytes(Layout(x))) + rest
  }

  // ----- the words of a header in host order -----

  lemma {:induction false} SwappedWord(ws: seq<u16>, i: nat)
    requires i < |ws|
    ensures GetLe(Swap(Bytes(ws)), 2 * i) == ws[i]
    decreases |ws|
  {
    SwapWord(Bytes(ws), 2 * i);
    WordOf(ws, i);
  }

  lemma {:induction false} WordOf(ws: seq<u16>, i: nat)
    requires i < |ws|
    ensures Get16(Bytes(ws), 2 * i) == ws[i]
    decreases |ws|
  {
    if i > 0 {
      WordOf(ws[1..], i - 1);
      var s, t := Bytes(ws), Bytes(ws[1..]);
      assert s[2 * i] == t[2 * i - 2] && s[2 * i + 1] == t[2 * i - 1];
    }
  }

  /** The header in host order with anything behind it, word by word. */
  lemma HostWord(ws: seq<u16>, rest: seq<byte>, i: nat)
    requires i < |ws|
    ensures GetLe(Swap(Bytes(ws)) + rest, 2 * i) == ws[i]
  {
    hide Swap, Bytes, GetLe;
    SwappedWord(ws, i);
    WordBefore(Swap(Bytes(ws)), rest, 2 * i);
  }

  lemma WordBefore(s: seq<byte>, rest: seq<byte>, k: nat)
    requires k + 2 <= |s|
    ensures GetLe(s + rest, k) == GetLe(s, k)
  {
  }

  /** The flags are where the receiver looks for them. */
  lemma FlagsRead(x: Fields)
    ensures var v := FlagsAndVersion(x);
            && LBit(v) == x.hasLength && FBit(v) == x.hasNumbers && SBit(v) == x.hasOffset && !TBit(v) && v % 8 == 2
            && 2 * |Layout(x)| == FULL - Missing(v) && 6 <= 2 * |Layout(x)| <= FULL && GetLe(Be16(v), 0) < 0x8000
  {
  }

  /** Every header expands to one with exactly its fields. What it leaves out is filled in: the
      length with that of the expanded packet, the numbers with those of the call, the offset
      with 0. */
  lemma ExpandsToFields(x: Fields, rest: seq<byte>, len: nat, flow: Flow)
    requires 2 * |Layout(x)| + |rest| >= FULL
    ensures var missing := FULL - 2 * |Layout(x)|;
            && missing >= 0
            && FullHeader(InHost(x, rest), len, flow) ==
               Header(FlagsAndVersion(x), if x.hasLength then x.length else (len + missing) % 0x1_0000, x.tid, x.cid,
                      if x.hasNumbers then x.ns else flow.recNum, if x.hasNumbers then x.nr else flow.seqNum,
                      if x.hasOffset then x.offset else 0)
  {
    var ws := Layout(x);
    FlagsRead(x);
    var l, f := if x.hasLength then 1 else 0, if x.hasNumbers then 2 else 0;
    assert ws[0] == FlagsAndVersion(x) && ws[1 + l] == x.tid && ws[2 + l] == x.cid;
    assert x.hasLength ==> ws[1] == x.length;
    assert x.hasNumbers ==> ws[3 + l] == x.ns && ws[4 + l] == x.nr;
    assert x.hasOffset ==> ws[3 + l + f] == x.offset;
    hide Layout, FlagsAndVersion, Swap, Bytes, GetLe, LBit, FBit, SBit, Missing;
    HostWord(ws, rest, 0);
    HostWord(ws, rest, 1 + l);
    HostWord(ws, rest, 2 + l);
    if x.hasLength {
      HostWord(ws, rest, 1);
    }
    if x.hasNumbers {
      HostWord(ws, rest, 3 + l);
      HostWord(ws, rest, 4 + l);
    }
    if x.hasOffset {
      HostWord(ws, rest, 3 + l + f);
    }
  }

  // ----- what becomes of a packet -----

  /** How far ahead of the last number received a packet is. */
  function Ahead(ns: u16, flow: Flow): nat {
    (ns - flow.recNum) % 0x1_0000
  }

  /** A packet is taken if it is at most two ahead, or, where the numbers wrap, at most 32,768;
      or if its number is that of the next packet sent the other way. */
  lemma TakenExactly(ns: u16, flow: Flow)
    ensures Sequence(ns, flow).Taken? <==>
              || ns == flow.seqNum
              || Ahead(ns, flow) <= (if flow.recNum + Ahead(ns, flow) < 0x1_0000 then 2 else 0x8000)
    ensures Sequence(ns, flow).Taken? ==>
              Sequence(ns, flow).flow == flow.(recNum := if ns == flow.seqNum then (flow.recNum + 1) % 0x1_0000 else ns)
  {
  }

  /** The number a packet is judged by: its own, or the last one received. */
  function NumberOf(x: Fields, flow: Flow): u16 {
    if x.hasNumbers then x.ns else flow.recNum
  }

  /** What is left of a packet once its header is known. */
  function Remains(body: seq<byte>, skip: nat, verdict: Verdict, flow: Flow): Outcome {
    if verdict.Stale? then Refused(flow)
    else if body == [] then ZeroLength(verdict.flow.(recNum := (verdict.flow.recNum - 1) % 0x1_0000))
    else if skip > |body| then OffsetBeyond((|body| - skip) % SIZE_RANGE, verdict.flow)
    else Delivered(body[skip..], verdict.flow)
  }

  /** What a packet with this header and anything behind it comes to. */
  function Becomes(x: Fields, body: seq<byte>, flow: Flow): Outcome {
    if x.hasLength && x.length != 2 * |Layout(x)| + |body| then Refused(flow)
    else Remains(body, if x.hasOffset then x.offset else 0, Sequence(NumberOf(x, flow), flow), flow)
  }

  /** The packet is put in host order as a whole. */
  lemma FixedIs(x: Fields, rest: seq<byte>)
    requires 2 * |Layout(x)| + |rest| >= FULL
    ensures Fixed(OnWire(x, rest)) == InHost(x, rest)
  {
    var h, q := Bytes(Layout(x)), OnWire(x, rest);
    FlagsRead(x);
    WordOf(Layout(x), 0);
    assert q[0] == h[0] && q[1] == h[1] && h[..2] == Be16(FlagsAndVersion(x));
    assert GetLe(q, 0) < 0x8000 && Get16(q, 0) == FlagsAndVersion(x);
    assert q[..|h|] == h && q[|h|..] == rest;
    hide Bytes, Swap, Missing, Layout, FlagsAndVersion;
    assert FixSize(q) == |h|;
  }

  lemma AddresseeIs(x: Fields, rest: seq<byte>)
    requires 2 * |Layout(x)| + |rest| >= FULL
    ensures Addressee(InHost(x, rest)) == (x.tid, x.cid)
  {
    var ws := Layout(x);
    var l := if x.hasLength then 1 else 0;
    FlagsRead(x);
    assert ws[0] == FlagsAndVersion(x) && ws[1 + l] == x.tid && ws[2 + l] == x.cid;
    hide Layout, FlagsAndVersion, Swap, Bytes, GetLe, LBit, Missing;
    HostWord(ws, rest, 0);
    HostWord(ws, rest, 1 + l);
    HostWord(ws, rest, 2 + l);
  }

  /** The checks of the header. */
  lemma HeaderChecks(x: Fields, rest: seq<byte>, len: nat)
    requires 2 * |Layout(x)| + |rest| >= FULL && len >= 2 * |Layout(x)|
    ensures PayloadOk(InHost(x, rest), len) <==> (x.hasLength ==> x.length == len)
  {
    var ws := Layout(x);
    FlagsRead(x);
    assert ws[0] == FlagsAndVersion(x) && (x.hasLength ==> ws[1] == x.length);
    hide Layout, FlagsAndVersion, Swap, Bytes, GetLe, LBit, FBit, SBit, TBit, Missing;
    HostWord(ws, rest, 0);
    if x.hasLength {
      HostWord(ws, rest, 1);
    }
  }

  lemma ReceiveRemains(s: seq<byte>, start: nat, len: nat, body: seq<byte>, flow: Flow)
    requires start + FULL <= |s| && start + len <= |s| && NewStart(s, start) >= 0
    requires var at := NewStart(s, start) + FULL; at <= start + len && s[at..start + len] == body
    ensures var h := HeaderAt(s, start, len, flow);
            Receive(s, start, len, flow) ==
              if PayloadOk(s[start..], len) then Remains(body, h.offset, Sequence(h.ns, flow), flow) else Refused(flow)
  {
    var at, h := NewStart(s, start) + FULL, HeaderAt(s, start, len, flow);
    ExpandedTail(s, start, len, flow);
    var r := Expanded(s, start, len, flow);
    hide Expanded, HeaderAt, PayloadOk, Sequence, Missing, GetLe;
    assert r[at..start + len] == body;
    if h.offset <= |body| {
      SliceOfSlice(r, at, start + len, h.offset, |body|);
      assert body[h.offset..] == body[h.offset..|body|];
    }
  }

  /** Where the packet is in the buffer. */
  lemma Placed(x: Fields, body: seq<byte>, pre: seq<byte>, post: seq<byte>)
    requires |pre| >= 8 && 2 * |Layout(x)| + |body + post| >= FULL
    ensures var s, start, size := pre + InHost(x, body + post), |pre|, 2 * |Layout(x)|;
            && s[start..] == InHost(x, body + post) && NewStart(s, start) >= 0
            && NewStart(s, start) + FULL == start + size && s[start + size..start + size + |body|] == body
  {
    var fixed := InHost(x, body + post);
    var s, start, size := pre + fixed, |pre|, 2 * |Layout(x)|;
    FlagsRead(x);
    assert Layout(x)[0] == FlagsAndVersion(x);
    hide Bytes, Swap, Layout, FlagsAndVersion, Missing;
    HostWord(Layout(x), body + post, 0);
    assert s[start] == fixed[0] && s[start + 1] == fixed[1];
    assert fixed[size..] == body + post;
    assert s[start + size..start + size + |body|] == body;
  }

  /** The packet in host order, in the buffer. */
  lemma HostOutcome(x: Fields, body: seq<byte>, pre: seq<byte>, post: seq<byte>, flow: Flow)
    requires |pre| >= 8 && 2 * |Layout(x)| + |body + post| >= FULL
    ensures Receive(pre + InHost(x, body + post), |pre|, 2 * |Layout(x)| + |body|, flow) == Becomes(x, body, flow)
  {
    var fixed, len := InHost(x, body + post), 2 * |Layout(x)| + |body|;
    hide *;
    Placed(x, body, pre, post);
    HeaderChecks(x, body + post, len);
    ExpandsToFields(x, body + post, len, flow);
    ReceiveRemains(pre + fixed, |pre|, len, body, flow);
    HeaderOfSlice(pre + fixed, |pre|, len, flow);
    BecomesRemains(x, body, flow);
  }

  lemma HeaderOfSlice(s: seq<byte>, start: nat, len: nat, flow: Flow)
    requires start + FULL <= |s|
    ensures HeaderAt(s, start, len, flow) == FullHeader(s[start..], len, flow)
  {
  }

  lemma BecomesRemains(x: Fields, body: seq<byte>, flow: Flow)
    ensures Becomes(x, body, flow) ==
              if x.hasLength ==> x.length == 2 * |Layout(x)| + |body|
              then Remains(body, if x.hasOffset then x.offset else 0,
                           Sequence(if x.hasNumbers then x.ns else flow.recNum, flow), flow)
              else Refused(flow)
  {
    hide Sequence, Remains, Layout;
  }

  /** Every packet laid out so: it is for the tunnel and call it names, and comes to exactly what
      its fields say, wherever it is in the buffer and whatever is behind it. */
  lemma PacketOutcome(x: Fields, body: seq<byte>, pre: seq<byte>, post: seq<byte>, flow: Flow)
    requires |pre| >= 8 && 2 * |Layout(x)| + |body + post| >= FULL
    ensures var fixed, len := Fixed(OnWire(x, body + post)), |OnWire(x, body)|;
            Addressee(fixed) == (x.tid, x.cid) && Receive(pre + fixed, |pre|, len, flow) == Becomes(x, body, flow)
  {
    hide *;
    FixedIs(x, body + post);
    AddresseeIs(x, body + post);
    HostOutcome(x, body, pre, post, flow);
  }

  /** A packet with an offset gives back its payload without the padding. */
  lemma OffsetSkipped(x: Fields, pad: seq<byte>, payload: seq<byte>, pre: seq<byte>, post: seq<byte>, flow: Flow)
    requires |pre| >= 8 && 2 * |Layout(x)| + |pad + payload + post| >= FULL && payload != []
    requires |pad| == (if x.hasOffset then x.offset as int else 0)
    requires x.hasLength ==> x.length == 2 * |Layout(x)| + |pad| + |payload|
    requires x.hasNumbers ==> Ahead(x.ns, flow) <= 2 && flow.recNum + Ahead(x.ns, flow) < 0x1_0000
    ensures var fixed, len := Fixed(OnWire(x, pad + payload + post)), |OnWire(x, pad + payload)|;
            var o := Receive(pre + fixed, |pre|, len, flow);
            o.Delivered? && o.bytes == payload
  {
    hide Receive, Fixed, Layout, Sequence, OnWire;
    PacketOutcome(x, pad + payload, pre, post, flow);
    TakenExactly(NumberOf(x, flow), flow);
    assert (pad + payload)[|pad|..] == payload;
  }

  // ----- the sender, and control packets -----

  /** The fields of a packet we send. */
  function Sent(c: Sender, n: nat): Fields {
    var size := 6 + (if c.lbit then 2 else 0) + (if c.fbit then 4 else 0);
    Fields(c.lbit, c.fbit, false, false, (size + n) % 0x1_0000, c.tid, c.cid, c.ns, c.nr, 0)
  }

  lemma {:induction false} BytesConcat(a: seq<u16>, b: seq<u16>)
    ensures Bytes(a + b) == Bytes(a) + Bytes(b)
    decreases |a|
  {
    if a == [] {
      assert a + b == b;
    } else {
      assert (a + b)[1..] == a[1..] + b;
      BytesConcat(a[1..], b);
    }
  }

  lemma BytesOfOne(x: u16)
    ensures Bytes([x]) == Be16(x)
  {
    var none: seq<u16> := [];
    assert [x][1..] == none && Bytes(none) == [];
  }

  lemma BytesOfTwo(x: u16, y: u16)
    ensures Bytes([x, y]) == Be16(x) + Be16(y)
  {
    hide Be16;
    assert [x, y] == [x] + [y];
    BytesConcat([x], [y]);
    BytesOfOne(x);
    BytesOfOne(y);
  }

  /** The header put before a payload is the one these fields have. */
  lemma SentLayout(c: Sender, payload: seq<byte>)
    ensures Packet(c, payload) == OnWire(Sent(c, |payload|), payload)
  {
    var x, none: seq<u16> := Sent(c, |payload|), [];
    var v, l, i := [FlagsAndVersion(x)], if c.lbit then [x.length] else none, [c.tid, c.cid];
    var n := if c.fbit then [c.ns, c.nr] else none;
    assert First(c.lbit, c.fbit) == FlagsAndVersion(x);
    assert HeaderSize(c) == 6 + (if c.lbit then 2 else 0) + (if c.fbit then 4 else 0);
    assert Layout(x) == v + l + i + n + none;
    assert v + l + i + n + none == v + l + (i + n);
    hide FlagsAndVersion, First, HeaderSize, Layout, Be16;
    BytesConcat(v + l, i + n);
    BytesConcat(v, l);
    BytesConcat(i, n);
    BytesOfOne(FlagsAndVersion(x));
    BytesOfOne(x.length);
    BytesOfTwo(c.tid, c.cid);
    BytesOfTwo(c.ns, c.nr);
    assert Bytes(none) == [];
    assert Bytes(v) + Bytes(l) == Front(c, |payload|);
    assert Bytes(i) + Bytes(n) == Ids(c);
  }

  /** The six words of a control header are put in host order, and the packet is for the tunnel
      and call they name. */
  lemma ControlFixed(length: u16, tid: u16, cid: u16, ns: u16, nr: u16, body: seq<byte>)
    requires |body| >= 2
    ensures var ws := [0xC802, length, tid, cid, ns, nr];
            var s := Fixed(Bytes(ws) + body);
            && |s| == 12 + |body| && s[12..] == body && Addressee(s) == (tid, cid)
            && forall i :: 0 <= i < 6 ==> GetLe(s, 2 * i) == ws[i]
  {
    var ws := [0xC802, length, tid, cid, ns, nr];
    var h := Bytes(ws);
    var q := h + body;
    WordOf(ws, 0);
    assert h[..2] == Be16(ws[0]);
    assert q[0] == 0xC8 && q[1] == 2 && q[..12] == h && q[12..] == body;
    assert FixSize(q) == 12;
    hide Swap, Bytes, FixSize;
    assert Fixed(q) == Swap(h) + body;
    forall i | 0 <= i < 6 ensures GetLe(Fixed(q), 2 * i) == ws[i] {
      HostWord(ws, body, i);
    }
    assert GetLe(Fixed(q), 2 * 0) == 0xC802 && GetLe(Fixed(q), 2 * 2) == tid && GetLe(Fixed(q), 2 * 3) == cid;
  }

  /** The test for a control header looks at the second byte: with its high bit set, twelve bytes
      are put in host order whatever the first says. */
  lemma SecondByteDecides(s: seq<byte>, i: nat)
    requires |s| >= FULL && s[1] >= 0x80 && i < 6
    ensures Fixed(s)[12..] == s[12..] && GetLe(Fixed(s), 2 * i) == Get16(s, 2 * i)
  {
    var h := s[..12];
    assert FixSize(s) == 12 && Fixed(s) == Swap(h) + s[12..];
    hide Swap, FixSize;
    SwapWord(h, 2 * i);
    WordBefore(Swap(h), s[12..], 2 * i);
    assert h[2 * i] == s[2 * i] && h[2 * i + 1] == s[2 * i + 1];
  }
}
