/** The frames the daemon writes, as section 4.2 of RFC 1662 reads them. */
module PppFormat {
  import opened Fcs
  import opened Ppp

  /** What a reader makes of the bytes between two flags: the byte after 0x7d counts with its
      sixth bit changed. */
  function Transparent(s: seq<bv8>): seq<bv8>
    decreases |s|
  {
    if s == [] then []
    else if s[0] == 0x7d && |s| > 1 then [s[1] ^ 0x20] + Transparent(s[2..])
    else [s[0]] + Transparent(s[1..])
  }

  /** Control characters, the escape and the flag. */
  predicate NeedsEscape(b: bv8) {
    b < 0x20 || b == 0x7d || b == 0x7e
  }

  function Escapes(data: seq<bv8>): nat {
    if data == [] then 0 else (if NeedsEscape(data[0]) then 1 else 0) + Escapes(data[1..])
  }

  predicate Clean(s: seq<bv8>) {
    forall b <- s :: b >= 0x20 && b != 0x7e
  }

  lemma StuffOne(b: bv8)
    ensures NeedsEscape(b) ==> |Stuff(b)| == 2 && Stuff(b)[0] == 0x7d && Stuff(b)[1] ^ 0x20 == b
    ensures !NeedsEscape(b) ==> Stuff(b) == [b] && b != 0x7d
    ensures Clean(Stuff(b))
  {
    FlipTwice(b);
    if NeedsEscape(b) {
      FlipIsClean(b);
    }
    hide NeedsEscape;
  }

  lemma FlipTwice(b: bv8)
    ensures (b ^ 0x20) ^ 0x20 == b
  {
  }

  lemma FlipIsClean(b: bv8)
    requires NeedsEscape(b)
    ensures b ^ 0x20 >= 0x20 && b ^ 0x20 != 0x7e
  {
  }

  lemma {:induction false} StuffedReads(data: seq<bv8>)
    ensures var s := StuffAll(data); Transparent(s) == data && Clean(s) && |s| == |data| + Escapes(data)
  {
    if data != [] {
      var b, rest := data[0], StuffAll(data[1..]);
      StuffOne(b);
      hide Stuff, NeedsEscape;
      StuffedReads(data[1..]);
      var s := StuffAll(data);
      assert s == Stuff(b) + rest && s[|Stuff(b)|..] == rest;
    }
  }

  /** Every frame: a flag, bytes that are none and no control characters, and a flag. What is
      between them reads as the payload and its check sequence, complemented, low byte first;
      and nothing is escaped that need not be. */
  lemma FrameReads(payload: seq<bv8>)
    ensures var f, fcs := Frame(payload), RunSerial(0xffff, payload) ^ 0xffff;
            && |f| >= 2 && f[0] == 0x7e && f[|f| - 1] == 0x7e
            && var inner, data := f[1..|f| - 1], payload + [(fcs & 0xff) as bv8, ((fcs >> 8) & 0xff) as bv8];
               Transparent(inner) == data && Clean(inner) && |inner| == |data| + Escapes(data)
  {
    var f, data := Frame(payload), Checked(payload);
    TableIsSerial(INIT_FCS, payload);
    assert f[1..|f| - 1] == StuffAll(data);
    hide StuffAll, RunTable, RunSerial, Escapes, Transparent;
    StuffedReads(data);
  }
}
