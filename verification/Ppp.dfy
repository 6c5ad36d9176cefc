/** PPP frames between the daemon and its child: the encoder that stuffs a payload into an
    asynchronous frame, and the decoder that takes frames out of whatever chunks a read
    returns (section 4.2 of RFC 1662). */
module Ppp {
  import opened Fcs

  const FLAG: bv8 := 0x7e
  const ESCAPE: bv8 := 0x7d
  const TRANS: bv8 := 0x20
  const MAX_RECV_SIZE := 4096
  const MAX_ERRORS := 10
  const HEADER := 14  // bytes of a full data header

  // ----- the encoder -----

  predicate Special(b: bv8) {
    b < 0x20 || b == ESCAPE || b == FLAG
  }

  function Stuff(b: bv8): (s: seq<bv8>)
    ensures 1 <= |s| <= 2
  {
    if Special(b) then [ESCAPE, b ^ TRANS] else [b]
  }

  function StuffAll(data: seq<bv8>): seq<bv8> {
    if data == [] then [] else Stuff(data[0]) + StuffAll(data[1..])
  }

  /** The bytes between the flags, before stuffing. */
  function Checked(payload: seq<bv8>): seq<bv8> {
    payload + Trailer(payload)
  }

  function Frame(payload: seq<bv8>): seq<bv8> {
    [FLAG] + StuffAll(Checked(payload)) + [FLAG]
  }

  lemma {:induction false} StuffAllConcat(a: seq<bv8>, b: seq<bv8>)
    ensures StuffAll(a + b) == StuffAll(a) + StuffAll(b)
    decreases |a|
  {
    if a == [] {
      assert a + b == b;
    } else {
      assert (a + b)[1..] == a[1..] + b;
      StuffAllConcat(a[1..], b);
    }
  }

  lemma StuffNext(data: seq<bv8>, x: nat)
    requires x < |data|
    ensures StuffAll(data[..x + 1]) == StuffAll(data[..x]) + Stuff(data[x])
  {
    var none: seq<bv8> := [];
    assert data[..x + 1] == data[..x] + [data[x]] && [data[x]][1..] == none;
    StuffAllConcat(data[..x], [data[x]]);
    assert StuffAll([data[x]]) == Stuff(data[x]) + StuffAll(none);
  }

  lemma StuffGrows(data: seq<bv8>, x: nat, y: nat)
    requires x <= y <= |data|
    ensures |StuffAll(data[..x])| <= |StuffAll(data[..y])|
  {
    StuffAllConcat(data[..x], data[x..y]);
    assert data[..y] == data[..x] + data[x..y];
  }

  /** The frame of a payload has room: all but its last byte, stuffed, leave four bytes. */
  predicate Fits(payload: seq<bv8>) {
    var data := Checked(payload);
    1 + |StuffAll(data[..|data| - 1])| < MAX_RECV_SIZE - 4
  }

  /** What has been written when `x` bytes are encoded, each with room to spare. */
  predicate Written(w: seq<bv8>, data: seq<bv8>, x: nat) {
    && x <= |data| && w == [FLAG] + StuffAll(data[..x])
    && (x > 0 ==> 1 + |StuffAll(data[..x - 1])| < MAX_RECV_SIZE - 4)
  }

  lemma WrittenNext(w: seq<bv8>, data: seq<bv8>, x: nat)
    requires Written(w, data, x) && x < |data| && |w| < MAX_RECV_SIZE - 4
    ensures Written(w + Stuff(data[x]), data, x + 1)
  {
    StuffNext(data, x);
    hide StuffAll, Stuff;
    assert w + Stuff(data[x]) == [FLAG] + (StuffAll(data[..x]) + Stuff(data[x]));
  }

  lemma WrittenAll(w: seq<bv8>, payload: seq<bv8>)
    requires Written(w, Checked(payload), |Checked(payload)|)
    ensures Fits(payload) && w + [FLAG] == Frame(payload)
  {
    var data := Checked(payload);
    assert |data| >= 2 && data[..|data|] == data;
    hide StuffAll;
  }

  lemma TooLong(w: seq<bv8>, payload: seq<bv8>, x: nat)
    requires Written(w, Checked(payload), x) && x < |Checked(payload)| && |w| >= MAX_RECV_SIZE - 4
    ensures !Fits(payload)
  {
    StuffGrows(Checked(payload), x, |Checked(payload)| - 1);
    hide StuffAll;
  }

  /** The checked bytes of `rbuf` stuffed into the write buffer. Every store is inside it;
      the frame comes out exactly when it fits. */
  method Encode(rbuf: array<bv8>, start: nat, len: nat, ghost payload: seq<bv8>, wbuf: array<bv8>)
    returns (ok: bool, pos: nat)
    requires start + len <= rbuf.Length && rbuf[start..start + len] == Checked(payload)
    requires wbuf.Length == MAX_RECV_SIZE && rbuf != wbuf
    modifies wbuf
    ensures ok <==> Fits(payload)
    ensures ok ==> pos <= wbuf.Length && wbuf[..pos] == Frame(payload)
  {
    ghost var data := Checked(payload);
    pos := StoreFlag(wbuf, 0);
    var x := 0;
    assert Written(wbuf[..pos], data, x);
    hide Checked, StuffAll, Stuff, Written, Fits, Frame;
    while x < len
      invariant x <= len && pos <= MAX_RECV_SIZE - 3 && Written(wbuf[..pos], data, x)
    {
      if pos >= MAX_RECV_SIZE - 4 {
        TooLong(wbuf[..pos], payload, x);
        return false, pos;
      }
      WrittenNext(wbuf[..pos], data, x);
      assert rbuf[start + x] == data[x];
      pos := Store(wbuf, pos, rbuf[start + x]);
      x := x + 1;
    }
    WrittenAll(wbuf[..pos], payload);
    pos := StoreFlag(wbuf, pos);
    return true, pos;
  }

  /** Skip the header and the offset of the packet of `len` bytes at `start`, add the check
      bytes behind it and encode. An access behind the receive buffer is reported: the packet
      ends too close to its end, or the offset is beyond the packet and the length has wrapped. */
  method WritePacket(rbuf: array<bv8>, start: nat, len: nat, offset: nat, wbuf: array<bv8>)
    returns (ok: bool, pos: nat, inside: bool)
    requires start + len <= rbuf.Length && wbuf.Length == MAX_RECV_SIZE && rbuf != wbuf
    modifies rbuf, wbuf
    ensures inside <==> HEADER + offset <= len && start + len + 2 <= rbuf.Length
    ensures inside ==>
              var payload := old(rbuf[start + HEADER + offset..start + len]);
              && (ok <==> Fits(payload))
              && (ok ==> pos <= wbuf.Length && wbuf[..pos] == Frame(payload))
  {
    if HEADER + offset > len {
      return false, 0, false;
    }
    var from := start + HEADER + offset;
    ghost var payload := rbuf[from..start + len];
    var newLen, fine := AddFcs(rbuf, from, start + len - from);
    if !fine {
      return false, 0, false;
    }
    ok, pos := Encode(rbuf, from, newLen, payload, wbuf);
    inside := true;
  }

  /** Store a flag, which begins and ends a frame. */
  method StoreFlag(wbuf: array<bv8>, pos: nat) returns (next: nat)
    requires pos < wbuf.Length
    modifies wbuf
    ensures next == pos + 1 && wbuf[..next] == old(wbuf[..pos]) + [FLAG]
  {
    wbuf[pos] := FLAG;
    next := pos + 1;
  }

  /** Store one byte, behind an escape byte when it needs one. */
  method Store(wbuf: array<bv8>, pos: nat, b: bv8) returns (next: nat)
    requires pos + 2 <= wbuf.Length
    modifies wbuf
    ensures next == pos + |Stuff(b)| && wbuf[..next] == old(wbuf[..pos]) + Stuff(b)
  {
    next := pos;
    var e := b;
    if Special(e) {
      e := e ^ TRANS;
      wbuf[next] := ESCAPE;
      next := next + 1;
    }
    wbuf[next] := e;
    next := next + 1;
  }

  // ----- the decoder -----

  /** The read buffer leaves room for a header in front of the data. */
  const ROOM := MAX_RECV_SIZE - HEADER

  /** What a read from the child gives. */
  datatype Input = Data(bytes: seq<bv8>) | Nothing | Fault

  /** The partial frame, the unused part of the last chunk, and the reads to come. */
  datatype Line = Line(buf: seq<bv8>, chunk: seq<bv8>, inputs: seq<Input>)

  /** What a call returns, and whether every store was inside the buffer. Nothing is said of
      a call after one that was not. */
  datatype Result = Result(res: int, line: Line, inside: bool)

  /** A byte is appended to the frame, a whole frame is there, the reader gives up, or the
      byte is stored behind the buffer: the test is against its whole size. */
  datatype ByteResult = More(buf: seq<bv8>, escape: bool) | Done(buf: seq<bv8>) | Bad | Past

  function Take(buf: seq<bv8>, escape: bool, ch: bv8): ByteResult {
    if ch == FLAG then
      if escape then Bad
      else if |buf| >= 2 then Done(buf[..|buf| - 2])
      else if |buf| == 1 then Done(buf)
      else More(buf, escape)
    else if ch == ESCAPE then More(buf, true)
    else if |buf| < ROOM then More(buf + [if escape then ch ^ TRANS else ch], false)
    else if |buf| < MAX_RECV_SIZE then Past
    else Bad
  }

  predicate Shorter(a: Line, b: Line) {
    |a.inputs| < |b.inputs| || (|a.inputs| == |b.inputs| && |a.chunk| < |b.chunk|)
  }

  /** One call that reads a packet: the length of the frame that ended, 0 when there is
      nothing more to read, negative on an error. */
  function Read(l: Line, escape: bool, errors: nat): (r: Result)
    ensures r == Result(0, l, true) || Shorter(r.line, l)
    decreases |l.inputs|, |l.chunk|
  {
    if l.chunk == [] then
      if l.inputs == [] then Result(0, l, true)
      else
        var rest := l.(inputs := l.inputs[1..]);
        match l.inputs[0]
        case Nothing => Result(0, rest, true)
        case Fault => if errors + 1 > MAX_ERRORS then Result(-1, rest, true) else Read(rest, escape, errors + 1)
        case Data(bytes) => if bytes == [] then Result(0, rest, true) else Read(rest.(chunk := bytes), escape, errors)
    else
      match Take(l.buf, escape, l.chunk[0])
      case Bad => Result(-1, l.(chunk := []), true)
      case Past => Result(-1, l.(chunk := []), false)
      case Done(buf) => Result(|buf|, l.(buf := buf, chunk := l.chunk[1..]), true)
      case More(buf, escape1) => Read(l.(buf := buf, chunk := l.chunk[1..]), escape1, errors)
  }

  datatype Decoded = Packets(ps: seq<seq<bv8>>) | Broken | Overrun

  function After(packet: seq<bv8>, d: Decoded): Decoded {
    if !d.Packets? || packet == [] then d else Packets([packet] + d.ps)
  }

  /** The daemon reads packets for as long as there is something to read; a length of 0
      makes it wait for the next input, an error ends the call. */
  function Session(l: Line): Decoded
    decreases |l.inputs|, |l.chunk|
  {
    var r := Read(l, false, 0);
    if !r.inside then Overrun
    else if r.res < 0 then Broken
    else if r == Result(0, l, true) then Packets([])
    else if r.res == 0 then Session(r.line)
    else After(r.line.buf, Session(r.line.(buf := [])))
  }

  // ----- the decoder, one thing at a time -----

  /** What the decoder meets: a byte, a read that finds nothing, a read that fails. */
  datatype Item = Byte(b: bv8) | Stall | Error

  function Pure(bytes: seq<bv8>): (t: seq<Item>)
    ensures |t| == |bytes|
  {
    seq(|bytes|, i requires 0 <= i < |bytes| => Byte(bytes[i]))
  }

  function Items(x: Input): seq<Item> {
    match x
    case Data(bytes) => if bytes == [] then [Stall] else Pure(bytes)
    case Nothing => [Stall]
    case Fault => [Error]
  }

  function AllItems(inputs: seq<Input>): seq<Item> {
    if inputs == [] then [] else Items(inputs[0]) + AllItems(inputs[1..])
  }

  /** All that is to come, no matter how the bytes are cut into reads. */
  function Tape(l: Line): seq<Item> {
    Pure(l.chunk) + AllItems(l.inputs)
  }

  /** A call ends with a frame or a stall, and takes the escape and the error count with it. */
  function Run(buf: seq<bv8>, escape: bool, errors: nat, tape: seq<Item>): Decoded
    decreases |tape|
  {
    if tape == [] then Packets([])
    else
      match tape[0]
      case Stall => Run(buf, false, 0, tape[1..])
      case Error => if errors + 1 > MAX_ERRORS then Broken else Run(buf, escape, errors + 1, tape[1..])
      case Byte(b) =>
        match Take(buf, escape, b)
        case Bad => Broken
        case Past => Overrun
        case Done(packet) => After(packet, Run([], false, 0, tape[1..]))
        case More(buf1, escape1) => Run(buf1, escape1, errors, tape[1..])
  }

  /** What one call of the reader makes of the tape. */
  predicate ReadsTape(d: Decoded, r: Result) {
    if !r.inside then d == Overrun
    else if r.res < 0 then d == Broken
    else if r.res > 0 then d == After(r.line.buf, Run([], false, 0, Tape(r.line)))
    else d == Run(r.line.buf, false, 0, Tape(r.line))
  }

  lemma TapeOfChunk(l: Line)
    requires l.chunk != []
    ensures var next := l.(chunk := l.chunk[1..]);
            Tape(l) != [] && Tape(l)[0] == Byte(l.chunk[0]) && Tape(l)[1..] == Tape(next)
  {
    hide AllItems;
    assert Pure(l.chunk)[1..] == Pure(l.chunk[1..]);
    assert (Pure(l.chunk) + AllItems(l.inputs))[1..] == Pure(l.chunk)[1..] + AllItems(l.inputs);
  }

  lemma TapeOfInput(l: Line)
    requires l.chunk == [] && l.inputs != []
    ensures var rest := l.(inputs := l.inputs[1..]);
            match l.inputs[0]
            case Data(bytes) =>
              if bytes == [] then Tape(l) == [Stall] + Tape(rest) else Tape(l) == Tape(rest.(chunk := bytes))
            case Nothing => Tape(l) == [Stall] + Tape(rest)
            case Fault => Tape(l) == [Error] + Tape(rest)
  {
  }

  lemma ItemFirst(x: Item, tape: seq<Item>)
    ensures ([x] + tape)[0] == x && ([x] + tape)[1..] == tape
  {
  }

  lemma {:induction false} ReadRunsTape(l: Line, escape: bool, errors: nat)
    ensures ReadsTape(Run(l.buf, escape, errors, Tape(l)), Read(l, escape, errors))
    decreases |l.inputs|, |l.chunk|
  {
    if l.chunk != [] {
      TapeOfChunk(l);
      var t := Take(l.buf, escape, l.chunk[0]);
      hide Take, Tape;
      if t.More? {
        ReadRunsTape(l.(buf := t.buf, chunk := l.chunk[1..]), t.escape, errors);
      } else if t.Done? {
        EmptyFrame(t.buf, l.(buf := t.buf, chunk := l.chunk[1..]));
      }
    } else if l.inputs != [] {
      var rest := l.(inputs := l.inputs[1..]);
      TapeOfInput(l);
      ItemFirst(Stall, Tape(rest));
      ItemFirst(Error, Tape(rest));
      hide Tape;
      if l.inputs[0].Data? && l.inputs[0].bytes != [] {
        ReadRunsTape(rest.(chunk := l.inputs[0].bytes), escape, errors);
      } else if l.inputs[0].Fault? && errors + 1 <= MAX_ERRORS {
        ReadRunsTape(rest, escape, errors + 1);
      }
    } else {
      assert Tape(l) == [];
    }
  }

  /** A frame of two check bytes alone ends a call like a stall. */
  lemma EmptyFrame(packet: seq<bv8>, l: Line)
    ensures packet == [] ==> After(packet, Run([], false, 0, Tape(l))) == Run(packet, false, 0, Tape(l))
  {
  }

  /** Whatever the child does: how its output is cut into reads makes no difference beyond
      where the stalls and errors are. */
  lemma {:induction false} SessionIsRun(l: Line)
    ensures Session(l) == Run(l.buf, false, 0, Tape(l))
    decreases |l.inputs|, |l.chunk|
  {
    ReadRunsTape(l, false, 0);
    var r := Read(l, false, 0);
    hide Run;
    if !r.inside || r.res < 0 {
    } else if r == Result(0, l, true) {
      EmptyRead(l);
    } else {
      hide Read, Tape;
      if r.res == 0 {
        SessionIsRun(r.line);
      } else {
        SessionIsRun(r.line.(buf := []));
        TapeIgnoresBuf(r.line);
      }
    }
  }

  lemma TapeIgnoresBuf(l: Line)
    ensures Tape(l.(buf := [])) == Tape(l)
  {
  }

  lemma EmptyRead(l: Line)
    requires Read(l, false, 0) == Result(0, l, true)
    ensures Run(l.buf, false, 0, Tape(l)) == Packets([])
  {
    if l.chunk == [] && l.inputs == [] {
      assert Tape(l) == [];
    } else {
      ReadMoves(l);
    }
  }

  lemma ReadMoves(l: Line)
    requires l.chunk != [] || l.inputs != []
    ensures Shorter(Read(l, false, 0).line, l)
  {
  }

  // ----- the reader in place -----

  lemma SlicePrefix(s: seq<bv8>, at: nat, n: nat, m: nat)
    requires n <= m && at + m <= |s|
    ensures s[at..at + m][..n] == s[at..at + n]
  {
  }

  class Reader {
    const data: array<bv8>
    var len: nat
    var rbuf: seq<bv8>
    var pos: nat
    var inputs: seq<Input>

    ghost predicate Valid()
      reads this
    {
      data.Length == MAX_RECV_SIZE && HEADER + len <= data.Length && pos <= |rbuf|
    }

    ghost function View(): Line
      requires Valid()
      reads this, data
    {
      Line(data[HEADER..HEADER + len], rbuf[pos..], inputs)
    }

    constructor (reads0: seq<Input>)
      ensures Valid() && fresh(data) && View() == Line([], [], reads0)
    {
      data := new bv8[MAX_RECV_SIZE];
      len, rbuf, pos, inputs := 0, [], 0, reads0;
    }

    /** Ask the child for more; only used when the last chunk is used up. */
    method Fetch() returns (got: Input)
      requires Valid() && pos == |rbuf|
      modifies this`rbuf, this`pos, this`inputs
      ensures Valid()
      ensures old(inputs) == [] ==> got == Nothing && View() == old(View())
      ensures old(inputs) != [] ==> got == old(inputs)[0]
      ensures old(inputs) != [] ==>
                View() == Line(data[HEADER..HEADER + len], if got.Data? then got.bytes else [], old(inputs)[1..])
    {
      rbuf, pos := [], 0;
      if inputs == [] {
        return Nothing;
      }
      got := inputs[0];
      inputs := inputs[1..];
      if got.Data? {
        rbuf := got.bytes;
      }
    }

    /** A flag: the end of a frame, whose check bytes are dropped, or the beginning of one. */
    method Flag() returns (t: ByteResult)
      requires Valid()
      modifies this`len
      ensures Valid() && t == Take(old(View()).buf, false, FLAG)
      ensures (t.Done? || t.More?) && View() == old(View()).(buf := t.buf)
    {
      ghost var all := data[..];
      assert View().buf == all[HEADER..HEADER + len];
      if len >= 2 {
        len := len - 2;
        assert View().buf == all[HEADER..HEADER + len];
        SlicePrefix(all, HEADER, len, len + 2);
        return Done(data[HEADER..HEADER + len]);
      }
      if len == 1 {
        return Done(data[HEADER..HEADER + len]);
      }
      return More(data[HEADER..HEADER + len], false);
    }

    /** Store a byte of the frame. The test is against the size of the whole buffer; a store
        behind it is reported, not done. */
    method Store(ch: bv8) returns (t: ByteResult)
      requires Valid()
      modifies this`len, data
      ensures Valid()
      ensures old(len) < ROOM ==> t == More(old(View()).buf + [ch], false) && View() == old(View()).(buf := t.buf)
      ensures old(len) >= ROOM ==> t == (if old(len) < MAX_RECV_SIZE then Past else Bad) && View() == old(View())
    {
      if len >= MAX_RECV_SIZE {
        return Bad;
      }
      if HEADER + len >= data.Length {
        return Past;
      }
      ghost var before := View().buf;
      data[HEADER + len] := ch;
      len := len + 1;
      assert View().buf == before + [ch];
      return More(data[HEADER..HEADER + len], false);
    }

    /** Handle one byte of the chunk. */
    method Handle(escape: bool) returns (t: ByteResult)
      requires Valid() && pos < |rbuf|
      modifies this`len, this`rbuf, this`pos, data
      ensures Valid() && inputs == old(inputs) && t == Take(old(View()).buf, escape, old(rbuf[pos]))
      ensures t.Bad? || t.Past? ==> View() == old(View()).(chunk := [])
      ensures t.Done? || t.More? ==> View() == old(View()).(buf := t.buf, chunk := old(View()).chunk[1..])
    {
      var ch := rbuf[pos];
      pos := pos + 1;
      if ch == FLAG {
        if !escape {
          t := Flag();
        } else {
          t := Bad;
        }
      } else if ch == ESCAPE {
        t := More(data[HEADER..HEADER + len], true);
      } else {
        t := Store(if escape then ch ^ TRANS else ch);
      }
      if t.Bad? || t.Past? {
        rbuf, pos := [], 0;
      }
    }

    method ReadPacket() returns (res: int, inside: bool)
      requires Valid()
      modifies this, data
      ensures Valid() && Result(res, View(), inside) == Read(old(View()), false, 0)
    {
      var escape, errors := false, 0;
      while true
        invariant Valid() && Read(View(), escape, errors) == Read(old(View()), false, 0)
        decreases |inputs|, |rbuf| - pos
      {
        ghost var l := View();
        if pos == |rbuf| {
          var got := Fetch();
          if got.Fault? {
            errors := errors + 1;
            if errors > MAX_ERRORS {
              return -1, true;
            }
          } else if got.Nothing? || got.bytes == [] {
            return 0, true;
          }
        } else {
          assert l.chunk[0] == rbuf[pos];
          var t := Handle(escape);
          match t
          case Bad => return -1, true;
          case Past => return -1, false;
          case Done(_) => return len, true;
          case More(_, escape1) => escape := escape1;
        }
      }
    }
  }
}
