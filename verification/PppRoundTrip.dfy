/** The frames one daemon writes and the packets the other reads, for every way the bytes
    reach the reader: when they are the same, and when the reader leaves its buffer. */
module PppRoundTrip {
  import opened Fcs
  import opened Ppp

  // ----- where the sender is -----

  function Frames(ps: seq<seq<bv8>>): seq<bv8> {
    if ps == [] then [] else Frame(ps[0]) + Frames(ps[1..])
  }

  predicate Sendable(ps: seq<seq<bv8>>) {
    forall p <- ps :: p != [] && Fits(p)
  }

  /** A place in the stream of frames: before a frame, or inside the frame of `p`, with `k`
      bytes of it sent and perhaps the escape of the next. */
  datatype Spot = Between(ps: seq<seq<bv8>>) | Within(p: seq<bv8>, k: nat, mid: bool, ps: seq<seq<bv8>>) {
    predicate Valid() {
      && Sendable(ps)
      && (Within? ==> p != [] && Fits(p) && k <= |p| + 2 && (mid ==> k < |p| + 2 && Special(Checked(p)[k])))
    }

    /** The byte that comes next. */
    function Emit(): bv8
      requires Valid() && (Between? ==> ps != [])
    {
      if Between? || k == |p| + 2 then FLAG
      else if mid then Checked(p)[k] ^ TRANS
      else if Special(Checked(p)[k]) then ESCAPE
      else Checked(p)[k]
    }

    function Advance(): (r: Spot)
      requires Valid() && (Between? ==> ps != [])
      ensures r.Valid()
    {
      if Between? then
        assert ps[0] in ps;
        Within(ps[0], 0, false, ps[1..])
      else if k == |p| + 2 then Between(ps)
      else if mid || !Special(Checked(p)[k]) then Within(p, k + 1, false, ps)
      else Within(p, k, true, ps)
    }

    /** The bytes still to come. */
    function Remaining(): seq<bv8>
      requires Valid()
    {
      if Between? then Frames(ps)
      else if mid then [Checked(p)[k] ^ TRANS] + (StuffAll(Checked(p)[k + 1..]) + ([FLAG] + Frames(ps)))
      else StuffAll(Checked(p)[k..]) + ([FLAG] + Frames(ps))
    }

    /** The packets to come, the current one included. */
    function Expected(): seq<seq<bv8>> {
      if Between? then ps else [p] + ps
    }

    /** A byte of the payload has been announced by its escape. */
    predicate MidPayload() {
      Within? && mid && k < |p|
    }
  }

  lemma StuffHead(data: seq<bv8>)
    requires data != []
    ensures StuffAll(data) == Stuff(data[0]) + StuffAll(data[1..])
  {
  }

  lemma EmitBetween(ps: seq<seq<bv8>>)
    requires Between(ps).Valid() && ps != []
    ensures Frames(ps) == [FLAG] + Between(ps).Advance().Remaining()
  {
    var p := ps[0];
    assert Checked(p)[0..] == Checked(p);
    hide StuffAll, Checked, Fits;
    var body, rest := StuffAll(Checked(p)), Frames(ps[1..]);
    assert [FLAG] + body + [FLAG] + rest == [FLAG] + (body + ([FLAG] + rest));
  }

  lemma EmitWithin(data: seq<bv8>, k: nat, tail: seq<bv8>)
    requires k < |data|
    ensures StuffAll(data[k..]) + tail == Stuff(data[k]) + (StuffAll(data[k + 1..]) + tail)
  {
    StuffHead(data[k..]);
    assert data[k..][1..] == data[k + 1..];
    hide StuffAll, Stuff;
  }

  lemma StuffFirst(b: bv8, more: seq<bv8>)
    ensures Stuff(b) + more == if Special(b) then [ESCAPE] + ([b ^ TRANS] + more) else [b] + more
  {
  }

  lemma EmitInside(spot: Spot)
    requires spot.Valid() && spot.Within? && spot.k < |spot.p| + 2 && !spot.mid
    ensures spot.Remaining() == [spot.Emit()] + spot.Advance().Remaining()
  {
    var data, tail := Checked(spot.p), [FLAG] + Frames(spot.ps);
    assert |data| == |spot.p| + 2;
    hide StuffAll, Stuff, Fits, Checked, Frames, Sendable, Special;
    EmitWithin(data, spot.k, tail);
    StuffFirst(data[spot.k], StuffAll(data[spot.k + 1..]) + tail);
  }

  lemma EmitEnd(spot: Spot)
    requires spot.Valid() && spot.Within? && spot.k == |spot.p| + 2
    ensures spot.Remaining() == [FLAG] + Frames(spot.ps)
  {
    assert Checked(spot.p)[spot.k..] == [] && StuffAll(Checked(spot.p)[spot.k..]) == [];
    hide StuffAll, Fits, Checked, Frames, Sendable;
  }

  lemma EmitFirst(spot: Spot)
    requires spot.Valid() && (spot.Between? ==> spot.ps != [])
    ensures spot.Remaining() == [spot.Emit()] + spot.Advance().Remaining()
  {
    hide StuffAll, Fits, Frames, Sendable, Special;
    if spot.Between? {
      EmitBetween(spot.ps);
    } else if spot.k == |spot.p| + 2 {
      EmitEnd(spot);
    } else if !spot.mid {
      EmitInside(spot);
    }
  }

  lemma NothingRemains(spot: Spot)
    requires spot.Valid()
    ensures spot.Remaining() == [] <==> spot == Between([])
  {
    hide Frame, StuffAll, Fits;
    if spot.Between? && spot.ps != [] {
      assert |Frame(spot.ps[0])| >= 2 by { FrameLength(spot.ps[0]); }
    }
  }

  lemma FrameLength(p: seq<bv8>)
    ensures |Frame(p)| >= 2
  {
    hide StuffAll;
  }

  function TapeBytes(tape: seq<Item>): seq<bv8> {
    if tape == [] then [] else (if tape[0].Byte? then [tape[0].b] else []) + TapeBytes(tape[1..])
  }

  /** The next byte on the tape is the next byte sent. */
  lemma NextByte(spot: Spot, tape: seq<Item>)
    requires spot.Valid() && tape != [] && tape[0].Byte? && TapeBytes(tape) == spot.Remaining()
    ensures spot.Between? ==> spot.ps != []
    ensures tape[0].b == spot.Emit() && TapeBytes(tape[1..]) == spot.Advance().Remaining()
  {
    NothingRemains(spot);
    EmitFirst(spot);
    var b, rest, a, more := tape[0].b, TapeBytes(tape[1..]), spot.Emit(), spot.Advance().Remaining();
    assert [b] + rest == [a] + more;
    assert ([b] + rest)[0] == b && ([a] + more)[0] == a && ([b] + rest)[1..] == rest && ([a] + more)[1..] == more;
  }

  // ----- when frames come out as they went in -----

  /** No call sees more than ten errors. */
  predicate Calm(spot: Spot, errors: nat, tape: seq<Item>)
    requires spot.Valid() && TapeBytes(tape) == spot.Remaining()
    decreases |tape|
  {
    tape == [] ||
    match tape[0]
    case Stall => Calm(spot, 0, tape[1..])
    case Error => errors < 10 && Calm(spot, errors + 1, tape[1..])
    case Byte(_) =>
      NextByte(spot, tape);
      Calm(spot.Advance(), if spot.Advance().Between? then 0 else errors, tape[1..])
  }

  /** No stall comes right after the escape of a payload byte. */
  predicate EscapesKept(spot: Spot, tape: seq<Item>)
    requires spot.Valid() && TapeBytes(tape) == spot.Remaining()
    decreases |tape|
  {
    tape == [] ||
    match tape[0]
    case Stall => !spot.MidPayload() && EscapesKept(spot, tape[1..])
    case Error => EscapesKept(spot, tape[1..])
    case Byte(_) =>
      NextByte(spot, tape);
      EscapesKept(spot.Advance(), tape[1..])
  }

  /** Every packet to come, with its check bytes, has room behind the header. */
  predicate Roomy(ps: seq<seq<bv8>>) {
    forall p <- ps :: |p| + 2 <= 4082
  }

  /** The decoder has taken in what was sent of the frame, byte for byte or damaged. */
  predicate Follows(spot: Spot, buf: seq<bv8>, escape: bool) {
    if spot.Between? then buf == [] && !escape
    else |buf| == spot.k <= ROOM && (escape ==> spot.mid)
  }

  /** What it has taken in of the payload is right. */
  predicate Intact(spot: Spot, buf: seq<bv8>, escape: bool)
    requires Follows(spot, buf, escape)
  {
    spot.Within? ==>
      && (spot.MidPayload() ==> escape)
      && forall i :: 0 <= i < spot.k && i < |spot.p| ==> buf[i] == spot.p[i]
  }

  lemma StuffedByte(b: bv8)
    ensures Special(b) ==> b ^ TRANS != FLAG && b ^ TRANS != ESCAPE && (b ^ TRANS) ^ TRANS == b && b ^ TRANS != b
    ensures !Special(b) ==> b != FLAG && b != ESCAPE
  {
  }

  lemma {:induction false} StuffNotShorter(data: seq<bv8>)
    ensures |StuffAll(data)| >= |data|
  {
    if data != [] {
      StuffNotShorter(data[1..]);
    }
  }

  lemma FitsBound(p: seq<bv8>)
    requires Fits(p)
    ensures |Checked(p)| == |p| + 2 <= MAX_RECV_SIZE
  {
    var data := Checked(p);
    StuffNotShorter(data[..|data| - 1]);
  }

  /** The byte sent next, taken in: stored, understood, or stored behind the buffer. */
  lemma TakeSent(spot: Spot, buf: seq<bv8>, escape: bool)
    requires spot.Valid() && Follows(spot, buf, escape) && (spot.Between? ==> spot.ps != [])
    ensures var t, next := Take(buf, escape, spot.Emit()), spot.Advance();
            match t
            case Bad => false
            case Past => spot.Within? && |spot.p| + 2 > ROOM
            case Done(packet) =>
              && spot.Within? && next == Between(spot.ps) && |spot.p| + 2 <= ROOM && packet != []
              && (packet == spot.p <==> Intact(spot, buf, escape))
            case More(buf1, escape1) =>
              && next.Within? && next.Expected() == spot.Expected() && Follows(next, buf1, escape1)
              && (Intact(next, buf1, escape1) <==> Intact(spot, buf, escape))
  {
    if spot.Between? {
      assert [spot.ps[0]] + spot.ps[1..] == spot.ps;
    } else {
      FitsBound(spot.p);
      hide Fits;
      if spot.k < |spot.p| + 2 {
        StuffedByte(Checked(spot.p)[spot.k]);
        TakeInside(spot, buf, escape);
      } else {
        assert buf[..|spot.p|] == spot.p <==> forall i :: 0 <= i < |spot.p| ==> buf[i] == spot.p[i];
      }
    }
  }

  lemma TakeInside(spot: Spot, buf: seq<bv8>, escape: bool)
    requires spot.Valid() && spot.Within? && Follows(spot, buf, escape) && spot.k < |spot.p| + 2 <= MAX_RECV_SIZE
    ensures var t, next := Take(buf, escape, spot.Emit()), spot.Advance();
            match t
            case Bad => false
            case Past => |spot.p| + 2 > ROOM
            case Done(_) => false
            case More(buf1, escape1) =>
              && next.Within? && Follows(next, buf1, escape1)
              && (Intact(next, buf1, escape1) <==> Intact(spot, buf, escape))
  {
    var b := Checked(spot.p)[spot.k];
    assert spot.k < |spot.p| ==> b == spot.p[spot.k];
    hide Checked, Fits, Sendable, Take, Intact, Follows;
    StuffedByte(b);
    if spot.mid || !Special(b) {
      var stored := if spot.mid && !escape then b ^ TRANS else b;
      FollowsMid(spot, buf, escape);
      TakeStored(buf, escape, spot.Emit(), stored);
      if |buf| < ROOM {
        StoredIntact(spot, buf, escape, stored);
      }
    } else {
      TakeEscape(spot, buf, escape);
    }
  }

  lemma FollowsMid(spot: Spot, buf: seq<bv8>, escape: bool)
    requires spot.Within? && Follows(spot, buf, escape)
    ensures |buf| == spot.k && (escape ==> spot.mid)
  {
  }

  lemma TakeEscape(spot: Spot, buf: seq<bv8>, escape: bool)
    requires spot.Within? && !spot.mid && Follows(spot, buf, escape)
    ensures Take(buf, escape, ESCAPE) == More(buf, true)
    ensures var next := Within(spot.p, spot.k, true, spot.ps);
            Follows(next, buf, true) && (Intact(next, buf, true) <==> Intact(spot, buf, escape))
  {
  }

  lemma TakeStored(buf: seq<bv8>, escape: bool, ch: bv8, stored: bv8)
    requires ch != FLAG && ch != ESCAPE && stored == if escape then ch ^ TRANS else ch
    ensures Take(buf, escape, ch)
         == if |buf| < ROOM then More(buf + [stored], false) else if |buf| < MAX_RECV_SIZE then Past else Bad
  {
  }

  lemma StoredIntact(spot: Spot, buf: seq<bv8>, escape: bool, stored: bv8)
    requires spot.Within? && Follows(spot, buf, escape) && spot.k < ROOM
    requires spot.k < |spot.p| ==> (stored == spot.p[spot.k] <==> !spot.mid || escape)
    ensures var next := Within(spot.p, spot.k + 1, false, spot.ps);
            && Follows(next, buf + [stored], false)
            && (Intact(next, buf + [stored], false) <==> Intact(spot, buf, escape))
  {
    var got := buf + [stored];
    assert got[spot.k] == stored && forall i :: 0 <= i < spot.k ==> got[i] == buf[i];
  }

  /** What comes out, if the calls see few errors or not, there is room or not, and the
      payloads are taken in as they are or not. */
  predicate Agree(d: Decoded, calm: bool, room: bool, whole: bool, expected: seq<seq<bv8>>) {
    && (d.Packets? <==> calm && room)
    && (calm ==> (d.Overrun? <==> !room))
    && (d == Packets(expected) <==> calm && room && whole)
  }

  /** For every way the frames reach the decoder. */
  ghost predicate Outcome(spot: Spot, buf: seq<bv8>, escape: bool, errors: nat, tape: seq<Item>)
    requires spot.Valid() && TapeBytes(tape) == spot.Remaining() && Follows(spot, buf, escape)
  {
    Agree(Run(buf, escape, errors, tape), Calm(spot, errors, tape), Roomy(spot.Expected()),
          EscapesKept(spot, tape) && Intact(spot, buf, escape), spot.Expected())
  }

  lemma {:induction false} RunFrom(spot: Spot, buf: seq<bv8>, escape: bool, errors: nat, tape: seq<Item>)
    requires spot.Valid() && TapeBytes(tape) == spot.Remaining() && Follows(spot, buf, escape) && errors <= MAX_ERRORS
    ensures Outcome(spot, buf, escape, errors, tape)
    decreases |tape|
  {
    hide *;
    if tape == [] {
      OutcomeEnd(spot, buf, escape, errors);
    } else if tape[0].Stall? {
      UnfoldStall(spot, buf, escape, errors, tape);
      RunFrom(spot, buf, false, 0, tape[1..]);
      OutcomeStall(spot, buf, escape, errors, tape);
    } else if tape[0].Error? {
      UnfoldError(spot, buf, escape, errors, tape);
      if errors < MAX_ERRORS {
        RunFrom(spot, buf, escape, errors + 1, tape[1..]);
      }
      OutcomeError(spot, buf, escape, errors, tape);
    } else {
      RunByte(spot, buf, escape, errors, tape);
    }
  }

  lemma {:induction false} RunByte(spot: Spot, buf: seq<bv8>, escape: bool, errors: nat, tape: seq<Item>)
    requires spot.Valid() && TapeBytes(tape) == spot.Remaining() && Follows(spot, buf, escape) && errors <= MAX_ERRORS
    requires tape != [] && tape[0].Byte?
    ensures Outcome(spot, buf, escape, errors, tape)
    decreases |tape|, 0
  {
    hide *;
    UnfoldByte(spot, buf, escape, errors, tape);
    TakeSent(spot, buf, escape);
    var t, next := Take(buf, escape, spot.Emit()), spot.Advance();
    if t.More? {
      RunFrom(next, t.buf, t.escape, errors, tape[1..]);
      OutcomeMore(spot, buf, escape, errors, tape);
    } else if t.Done? {
      StartFollows(spot.ps);
      RunFrom(next, [], false, 0, tape[1..]);
      OutcomeDone(spot, buf, escape, errors, tape);
    } else {
      OutcomePast(spot, buf, escape, errors, tape);
    }
  }

  lemma OutcomeEnd(spot: Spot, buf: seq<bv8>, escape: bool, errors: nat)
    requires spot.Valid() && TapeBytes([]) == spot.Remaining() && Follows(spot, buf, escape)
    ensures Outcome(spot, buf, escape, errors, [])
  {
    NothingRemains(spot);
  }

  lemma OutcomeStall(spot: Spot, buf: seq<bv8>, escape: bool, errors: nat, tape: seq<Item>)
    requires spot.Valid() && TapeBytes(tape) == spot.Remaining() && tape != [] && tape[0].Stall?
    requires Follows(spot, buf, escape) && Follows(spot, buf, false) && TapeBytes(tape[1..]) == spot.Remaining()
    requires Outcome(spot, buf, false, 0, tape[1..])
    ensures Outcome(spot, buf, escape, errors, tape)
  {
    assert Intact(spot, buf, false) <==> Intact(spot, buf, escape) && !spot.MidPayload();
    hide Run, Calm, EscapesKept, Take, Roomy, Intact, Follows, TapeBytes, Agree;
    UnfoldStall(spot, buf, escape, errors, tape);
  }

  lemma OutcomeError(spot: Spot, buf: seq<bv8>, escape: bool, errors: nat, tape: seq<Item>)
    requires spot.Valid() && TapeBytes(tape) == spot.Remaining() && Follows(spot, buf, escape)
    requires tape != [] && tape[0].Error? && TapeBytes(tape[1..]) == spot.Remaining()
    requires errors < MAX_ERRORS ==> Outcome(spot, buf, escape, errors + 1, tape[1..])
    ensures Outcome(spot, buf, escape, errors, tape)
  {
    hide Run, Calm, EscapesKept, Take, Roomy, Intact, Follows, TapeBytes, Agree;
    UnfoldError(spot, buf, escape, errors, tape);
    BrokenAgrees(Roomy(spot.Expected()), EscapesKept(spot, tape) && Intact(spot, buf, escape), spot.Expected());
  }

  lemma BrokenAgrees(room: bool, whole: bool, expected: seq<seq<bv8>>)
    ensures Agree(Broken, false, room, whole, expected)
  {
  }

  lemma OutcomeMore(spot: Spot, buf: seq<bv8>, escape: bool, errors: nat, tape: seq<Item>)
    requires spot.Valid() && TapeBytes(tape) == spot.Remaining() && Follows(spot, buf, escape)
    requires tape != [] && tape[0].Byte? && (spot.Between? ==> spot.ps != [])
    requires TapeBytes(tape[1..]) == spot.Advance().Remaining()
    requires var t, next := Take(buf, escape, spot.Emit()), spot.Advance();
             t.More? && Follows(next, t.buf, t.escape) && Outcome(next, t.buf, t.escape, errors, tape[1..])
    ensures Outcome(spot, buf, escape, errors, tape)
  {
    hide Run, Calm, EscapesKept, Take, Roomy, Intact, Follows, TapeBytes, Agree;
    UnfoldByte(spot, buf, escape, errors, tape);
    TakeSent(spot, buf, escape);
  }

  lemma OutcomeDone(spot: Spot, buf: seq<bv8>, escape: bool, errors: nat, tape: seq<Item>)
    requires spot.Valid() && TapeBytes(tape) == spot.Remaining() && Follows(spot, buf, escape)
    requires tape != [] && tape[0].Byte? && (spot.Between? ==> spot.ps != [])
    requires TapeBytes(tape[1..]) == spot.Advance().Remaining() && Take(buf, escape, spot.Emit()).Done?
    requires Follows(spot.Advance(), [], false) && Outcome(spot.Advance(), [], false, 0, tape[1..])
    ensures Outcome(spot, buf, escape, errors, tape)
  {
    StartFollows(spot.ps);
    hide Run, Calm, EscapesKept, Take, Roomy, Intact, Follows, TapeBytes;
    UnfoldByte(spot, buf, escape, errors, tape);
    TakeSent(spot, buf, escape);
    EndOfFrame(spot, Take(buf, escape, spot.Emit()).buf, Run([], false, 0, tape[1..]));
    hide After;
  }

  lemma OutcomePast(spot: Spot, buf: seq<bv8>, escape: bool, errors: nat, tape: seq<Item>)
    requires spot.Valid() && TapeBytes(tape) == spot.Remaining() && Follows(spot, buf, escape)
    requires tape != [] && tape[0].Byte? && (spot.Between? ==> spot.ps != [])
    requires !Take(buf, escape, spot.Emit()).More? && !Take(buf, escape, spot.Emit()).Done?
    ensures Outcome(spot, buf, escape, errors, tape)
  {
    hide Run, Calm, EscapesKept, Take, Roomy, Intact, Follows, TapeBytes;
    UnfoldByte(spot, buf, escape, errors, tape);
    TakeSent(spot, buf, escape);
    RoomyParts(spot);
  }

  lemma StartFollows(ps: seq<seq<bv8>>)
    ensures Follows(Between(ps), [], false) && Intact(Between(ps), [], false)
  {
  }

  lemma RoomyParts(spot: Spot)
    requires spot.Within?
    ensures Roomy(spot.Expected()) <==> |spot.p| + 2 <= ROOM && Roomy(spot.ps)
  {
    assert spot.Expected()[0] == spot.p && spot.Expected()[1..] == spot.ps;
  }

  /** The packets are right when the first and the others are. */
  lemma EndOfFrame(spot: Spot, packet: seq<bv8>, d: Decoded)
    requires spot.Within? && packet != []
    ensures After(packet, d).Packets? <==> d.Packets?
    ensures After(packet, d).Overrun? <==> d.Overrun?
    ensures After(packet, d) == Packets(spot.Expected()) <==> packet == spot.p && d == Packets(spot.ps)
    ensures Roomy(spot.Expected()) <==> |spot.p| + 2 <= ROOM && Roomy(spot.ps)
  {
    RoomyParts(spot);
    hide Roomy;
    if d.Packets? {
      var got, sent := [packet] + d.ps, [spot.p] + spot.ps;
      assert got[0] == packet && got[1..] == d.ps && sent[0] == spot.p && sent[1..] == spot.ps;
    }
  }

  lemma UnfoldStall(spot: Spot, buf: seq<bv8>, escape: bool, errors: nat, tape: seq<Item>)
    requires spot.Valid() && TapeBytes(tape) == spot.Remaining() && tape != [] && tape[0].Stall?
    ensures TapeBytes(tape[1..]) == spot.Remaining()
    ensures Follows(spot, buf, escape) ==> Follows(spot, buf, false)
    ensures Calm(spot, errors, tape) == Calm(spot, 0, tape[1..])
    ensures EscapesKept(spot, tape) == (!spot.MidPayload() && EscapesKept(spot, tape[1..]))
    ensures Run(buf, escape, errors, tape) == Run(buf, false, 0, tape[1..])
  {
    assert TapeBytes(tape[1..]) == TapeBytes(tape);
    hide Take, TapeBytes;
  }

  lemma UnfoldError(spot: Spot, buf: seq<bv8>, escape: bool, errors: nat, tape: seq<Item>)
    requires spot.Valid() && TapeBytes(tape) == spot.Remaining() && tape != [] && tape[0].Error?
    ensures TapeBytes(tape[1..]) == spot.Remaining()
    ensures Calm(spot, errors, tape) == (errors < MAX_ERRORS && Calm(spot, errors + 1, tape[1..]))
    ensures EscapesKept(spot, tape) == EscapesKept(spot, tape[1..])
    ensures Run(buf, escape, errors, tape)
         == if errors < MAX_ERRORS then Run(buf, escape, errors + 1, tape[1..]) else Broken
  {
    assert TapeBytes(tape[1..]) == TapeBytes(tape);
    hide Take, TapeBytes;
  }

  lemma UnfoldByte(spot: Spot, buf: seq<bv8>, escape: bool, errors: nat, tape: seq<Item>)
    requires spot.Valid() && TapeBytes(tape) == spot.Remaining() && tape != [] && tape[0].Byte?
    ensures (spot.Between? ==> spot.ps != []) && TapeBytes(tape[1..]) == spot.Advance().Remaining()
    ensures var t, next, rest := Take(buf, escape, spot.Emit()), spot.Advance(), tape[1..];
            && Calm(spot, errors, tape) == Calm(next, if next.Between? then 0 else errors, rest)
            && EscapesKept(spot, tape) == EscapesKept(next, rest)
            && Run(buf, escape, errors, tape) ==
                 if t.Bad? then Broken
                 else if t.Past? then Overrun
                 else if t.Done? then After(t.buf, Run([], false, 0, rest))
                 else Run(t.buf, t.escape, errors, rest)
  {
    NextByte(spot, tape);
    hide Take, TapeBytes, After;
  }

  // ----- the results -----

  function Bytes(inputs: seq<Input>): seq<bv8> {
    if inputs == [] then [] else (if inputs[0].Data? then inputs[0].bytes else []) + Bytes(inputs[1..])
  }

  function Stream(l: Line): seq<bv8> {
    l.chunk + Bytes(l.inputs)
  }

  lemma {:induction false} TapeBytesConcat(a: seq<Item>, b: seq<Item>)
    ensures TapeBytes(a + b) == TapeBytes(a) + TapeBytes(b)
    decreases |a|
  {
    if a == [] {
      assert a + b == b;
    } else {
      assert (a + b)[1..] == a[1..] + b;
      TapeBytesConcat(a[1..], b);
    }
  }

  lemma {:induction false} TapeBytesPure(bytes: seq<bv8>)
    ensures TapeBytes(Pure(bytes)) == bytes
    decreases |bytes|
  {
    if bytes != [] {
      assert Pure(bytes)[1..] == Pure(bytes[1..]);
      TapeBytesPure(bytes[1..]);
    }
  }

  lemma {:induction false} TapeBytesItems(inputs: seq<Input>)
    ensures TapeBytes(AllItems(inputs)) == Bytes(inputs)
  {
    if inputs != [] {
      TapeBytesConcat(Items(inputs[0]), AllItems(inputs[1..]));
      TapeBytesItems(inputs[1..]);
      if inputs[0].Data? {
        TapeBytesPure(inputs[0].bytes);
      }
    }
  }

  lemma TapeBytesStream(l: Line)
    ensures TapeBytes(Tape(l)) == Stream(l)
  {
    TapeBytesConcat(Pure(l.chunk), AllItems(l.inputs));
    TapeBytesPure(l.chunk);
    TapeBytesItems(l.inputs);
  }

  lemma FramesOutcome(ps: seq<seq<bv8>>, l: Line)
    requires Sendable(ps) && l.buf == [] && Stream(l) == Frames(ps)
    ensures TapeBytes(Tape(l)) == Between(ps).Remaining()
    ensures Agree(Session(l), Calm(Between(ps), 0, Tape(l)), Roomy(ps), EscapesKept(Between(ps), Tape(l)), ps)
  {
    hide Tape, Stream, Run, Session, Calm, EscapesKept, Roomy, Agree;
    TapeBytesStream(l);
    SessionIsRun(l);
    StartFollows(ps);
    RunFrom(Between(ps), [], false, 0, Tape(l));
  }

  /** The payloads a daemon sends are the packets the other side reads, one for one, however
      the bytes are cut into reads, exactly when no stall comes right after the escape of a
      payload byte, no call sees more than ten errors, and every frame has room. */
  lemma PacketsSurvive(ps: seq<seq<bv8>>, l: Line)
    requires Sendable(ps) && l.buf == [] && Stream(l) == Frames(ps)
    ensures TapeBytes(Tape(l)) == Frames(ps)
    ensures Session(l) == Packets(ps) <==>
              Calm(Between(ps), 0, Tape(l)) && EscapesKept(Between(ps), Tape(l)) && Roomy(ps)
  {
    FramesOutcome(ps, l);
    hide Tape, Session, Calm, EscapesKept, Roomy, Stream, Sendable, Frames;
  }

  /** As long as no call sees more than ten errors, every store is inside the read buffer
      exactly when no frame, check bytes included, is longer than 4082 bytes; and then the
      call goes on. */
  lemma StoresInside(ps: seq<seq<bv8>>, l: Line)
    requires Sendable(ps) && l.buf == [] && Stream(l) == Frames(ps)
    ensures TapeBytes(Tape(l)) == Frames(ps)
    ensures Calm(Between(ps), 0, Tape(l)) ==> (Session(l) != Overrun <==> forall p <- ps :: |p| + 2 <= 4082)
    ensures Session(l).Packets? <==> Calm(Between(ps), 0, Tape(l)) && forall p <- ps :: |p| + 2 <= 4082
  {
    FramesOutcome(ps, l);
    assert Roomy(ps) <==> forall p <- ps :: |p| + 2 <= 4082;
    hide Tape, Session, Calm, EscapesKept, Roomy, Stream, Sendable, Frames;
  }

  // ----- a frame without room -----

  lemma {:induction false} PlainStuff(data: seq<bv8>)
    requires forall b <- data :: !Special(b)
    ensures StuffAll(data) == data
  {
    if data != [] {
      PlainStuff(data[1..]);
    }
  }

  lemma {:induction false} FewErrors(spot: Spot, errors: nat, tape: seq<Item>)
    requires spot.Valid() && TapeBytes(tape) == spot.Remaining() && Error !in tape
    ensures Calm(spot, errors, tape)
    decreases |tape|
  {
    hide Spot.Valid, Spot.Remaining;
    if tape != [] {
      if tape[0].Stall? {
        UnfoldStall(spot, [], false, errors, tape);
        FewErrors(spot, 0, tape[1..]);
      } else {
        UnfoldByte(spot, [], false, errors, tape);
        FewErrors(spot.Advance(), if spot.Advance().Between? then 0 else errors, tape[1..]);
      }
    }
  }

  lemma PlainFits(p: seq<bv8>)
    requires |p| <= 4088 && forall b <- p :: !Special(b)
    ensures Fits(p)
  {
    var first, data := Trailer(p)[..1], Checked(p);
    assert data[..|data| - 1] == p + first;
    hide Trailer, Checked, Special;
    StuffAllConcat(p, first);
    PlainStuff(p);
    StuffHead(first);
    hide StuffAll;
    assert |StuffAll(first[1..])| == 0 by { NothingStuffed(first[1..]); }
  }

  lemma NothingStuffed(data: seq<bv8>)
    requires data == []
    ensures StuffAll(data) == []
  {
  }

  lemma OneRead(p: seq<bv8>)
    ensures var l := Line([], [], [Data(Frame(p))]);
            Stream(l) == Frames([p]) && Error !in Tape(l)
  {
    FrameLength(p);
    var l, none, rest := Line([], [], [Data(Frame(p))]), Frames([]), AllItems([]);
    hide Frame;
    assert l.inputs[1..] == [] && [p][1..] == [];
    assert Bytes(l.inputs) == Frame(p) + Bytes([]);
    PureNoError(Frame(p));
    assert AllItems(l.inputs) == Pure(Frame(p)) + rest;
    hide Pure;
  }

  /** A frame without room is stored past the end of the buffer. */
  lemma LongFrameOverruns(p: seq<bv8>)
    requires Fits(p) && |p| + 2 > 4082
    ensures Session(Line([], [], [Data(Frame(p))])) == Overrun
  {
    var l := Line([], [], [Data(Frame(p))]);
    assert p in [p];
    assert Sendable([p]);
    hide Fits, Sendable, Frame, Frames, Tape, Stream, Session, Calm, TapeBytes;
    OneRead(p);
    StoresInside([p], l);
    assert Calm(Between([p]), 0, Tape(l)) by { FewErrors(Between([p]), 0, Tape(l)); }
  }

  /** And the encoder would write such a frame: 4081 bytes of 0x41, say. Packets from the
      network are shorter, so it has to come from the child. */
  lemma LongFramesFit()
    ensures var p := seq(4081, _ => 0x41 as bv8); Fits(p) && Session(Line([], [], [Data(Frame(p))])) == Overrun
  {
    var p := seq(4081, _ => 0x41 as bv8);
    PlainFits(p);
    assert |p| == 4081;
    hide Fits, Frame, Session;
    LongFrameOverruns(p);
  }

  lemma PureNoError(bytes: seq<bv8>)
    ensures Error !in Pure(bytes)
  {
  }

  // ----- an escape forgotten -----

  lemma RunPureByte(buf: seq<bv8>, b: bv8, errors: nat, tape: seq<Item>)
    requires |buf| < ROOM
    ensures Run(buf, false, errors, Pure(Stuff(b)) + tape) == Run(buf + [b], false, errors, tape)
  {
    StuffedByte(b);
    if Special(b) {
      var t := Pure(Stuff(b)) + tape;
      assert t == [Byte(ESCAPE)] + ([Byte(b ^ TRANS)] + tape);
      assert t[1..] == [Byte(b ^ TRANS)] + tape && t[1..][1..] == tape;
      assert Take(buf, false, ESCAPE) == More(buf, true);
      assert Take(buf, true, b ^ TRANS) == More(buf + [b], false);
    } else {
      assert Pure(Stuff(b)) + tape == [Byte(b)] + tape;
      ItemFirst(Byte(b), tape);
    }
  }

  lemma {:induction false} RunPure(buf: seq<bv8>, data: seq<bv8>, errors: nat, tape: seq<Item>)
    requires |buf| + |data| <= ROOM
    ensures Run(buf, false, errors, Pure(StuffAll(data)) + tape) == Run(buf + data, false, errors, tape)
    decreases |data|
  {
    hide Run, Stuff;
    if data == [] {
      assert Pure(StuffAll(data)) + tape == tape && buf + data == buf;
    } else {
      var first, rest := Stuff(data[0]), StuffAll(data[1..]);
      assert Pure(first + rest) + tape == Pure(first) + (Pure(rest) + tape);
      RunPureByte(buf, data[0], errors, Pure(rest) + tape);
      RunPure(buf + [data[0]], data[1..], errors, tape);
      assert buf + [data[0]] + data[1..] == buf + data;
    }
  }

  lemma RunOne(buf: seq<bv8>, escape: bool, errors: nat, x: Item, tape: seq<Item>)
    ensures Run(buf, escape, errors, [x] + tape) ==
              if x.Stall? then Run(buf, false, 0, tape)
              else if x.Error? then if errors + 1 > MAX_ERRORS then Broken else Run(buf, escape, errors + 1, tape)
              else
                var t := Take(buf, escape, x.b);
                if t.Bad? then Broken
                else if t.Past? then Overrun
                else if t.Done? then After(t.buf, Run([], false, 0, tape))
                else Run(t.buf, t.escape, errors, tape)
  {
    ItemFirst(x, tape);
    hide Take, After;
  }

  /** The frame of `a + [b] + c` cut behind the escape of `b`. */
  function Head(a: seq<bv8>): seq<bv8> {
    [FLAG] + StuffAll(a) + [ESCAPE]
  }

  function Rest(a: seq<bv8>, b: bv8, c: seq<bv8>): seq<bv8> {
    [b ^ TRANS] + StuffAll(c + Trailer(a + [b] + c)) + [FLAG]
  }

  lemma CutFrame(a: seq<bv8>, b: bv8, c: seq<bv8>)
    requires Special(b)
    ensures Frame(a + [b] + c) == Head(a) + Rest(a, b, c)
  {
    var p := a + [b] + c;
    var tail := c + Trailer(p);
    hide Trailer;
    assert Checked(p) == a + ([b] + tail);
    StuffAllConcat(a, [b] + tail);
    StuffHead([b] + tail);
    assert ([b] + tail)[1..] == tail;
    hide StuffAll;
    CutAt(StuffAll(a), b ^ TRANS, StuffAll(tail));
  }

  lemma CutAt(x: seq<bv8>, e: bv8, y: seq<bv8>)
    ensures [FLAG] + (x + ([ESCAPE, e] + y)) + [FLAG] == [FLAG] + x + [ESCAPE] + ([e] + y + [FLAG])
  {
  }

  /** What the decoder does with the first part and a stall. */
  lemma RunHead(a: seq<bv8>, tape: seq<Item>)
    requires |a| <= ROOM
    ensures Run([], false, 0, Pure(Head(a)) + ([Stall] + tape)) == Run(a, false, 0, tape)
  {
    var front := [Byte(ESCAPE)] + ([Stall] + tape);
    hide Run, StuffAll;
    assert Pure(Head(a)) + ([Stall] + tape) == [Byte(FLAG)] + (Pure(StuffAll(a)) + front);
    RunOne([], false, 0, Byte(FLAG), Pure(StuffAll(a)) + front);
    RunPure([], a, 0, front);
    assert [] + a == a;
    RunOne(a, false, 0, Byte(ESCAPE), [Stall] + tape);
    RunOne(a, true, 0, Stall, tape);
  }

  /** And with the second. */
  lemma RunRest(a: seq<bv8>, e: bv8, c: seq<bv8>, check: seq<bv8>)
    requires e != FLAG && e != ESCAPE && |a| + 1 + |c| + 2 <= ROOM && |check| == 2
    ensures Run(a, false, 0, Pure([e] + StuffAll(c + check) + [FLAG])) == Packets([a + [e] + c])
  {
    var last, got := [Byte(FLAG)], a + [e] + (c + check);
    assert Take(a, false, e) == More(a + [e], false);
    assert got[..|a| + 1 + |c|] == a + [e] + c && got == a + [e] + (c + check);
    hide Run, StuffAll, Take, Pure;
    PureEnds(e, StuffAll(c + check));
    RunOne(a, false, 0, Byte(e), Pure(StuffAll(c + check)) + last);
    RunPure(a + [e], c + check, 0, last);
    RunLast(got, a + [e] + c);
  }

  lemma PureEnds(e: bv8, y: seq<bv8>)
    ensures Pure([e] + y + [FLAG]) == [Byte(e)] + (Pure(y) + [Byte(FLAG)])
  {
  }

  lemma RunLast(got: seq<bv8>, packet: seq<bv8>)
    requires packet != [] && |got| == |packet| + 2 && got[..|packet|] == packet
    ensures Run(got, false, 0, [Byte(FLAG)]) == Packets([packet])
  {
    assert [Byte(FLAG)] == [Byte(FLAG)] + [];
    RunOne(got, false, 0, Byte(FLAG), []);
    RunNothing();
    hide Run;
    assert [packet] + [] == [packet];
  }

  lemma RunNothing()
    ensures Run([], false, 0, []) == Packets([])
  {
  }

  lemma ThreeReads(x: seq<bv8>, y: seq<bv8>)
    requires x != [] && y != []
    ensures var inputs := [Data(x), Nothing, Data(y)];
            Bytes(inputs) == x + y && Tape(Line([], [], inputs)) == Pure(x) + ([Stall] + Pure(y))
  {
    var inputs, none: seq<Input> := [Data(x), Nothing, Data(y)], [];
    assert inputs[1..] == [Nothing, Data(y)] && inputs[1..][1..] == [Data(y)] && [Data(y)][1..] == none;
    assert Bytes([Data(y)]) == y + Bytes(none) && AllItems([Data(y)]) == Pure(y) + AllItems(none);
    assert Bytes(inputs[1..]) == [] + Bytes([Data(y)]) && AllItems(inputs[1..]) == [Stall] + AllItems([Data(y)]);
  }

  /** The escape byte is forgotten between two calls: for every payload and every escaped
      byte in it, when a read finds nothing right after the escape, the payload comes out
      with that byte changed. */
  lemma StallLosesEscape(a: seq<bv8>, b: bv8, c: seq<bv8>)
    requires Special(b) && |a| + 1 + |c| + 2 <= ROOM
    ensures var inputs := [Data(Head(a)), Nothing, Data(Rest(a, b, c))];
            && Bytes(inputs) == Frame(a + [b] + c)
            && Session(Line([], [], inputs)) == Packets([a + [b ^ TRANS] + c]) && b ^ TRANS != b
  {
    var p, rest := a + [b] + c, Rest(a, b, c);
    assert |Trailer(p)| == 2;
    hide Trailer, Run, Session, Bytes, Tape;
    StuffedByte(b);
    CutFrame(a, b, c);
    ThreeReads(Head(a), rest);
    SessionIsRun(Line([], [], [Data(Head(a)), Nothing, Data(rest)]));
    RunHead(a, Pure(rest));
    RunRest(a, b ^ TRANS, c, Trailer(p));
  }
}
