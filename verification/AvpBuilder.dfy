/** The send side: attributes are written one after the other behind the space kept
    for the control header of an outgoing buffer. */
module AvpBuilder {
  import opened Words
  import opened HiddenAvp
  import opened AvpHandlers
  import opened AvpMessages

  const BUFFER_SIZE := 4096
  const HEADER_SPACE := 12

  lemma {:induction false} WireAllConcat(a: seq<Attr>, b: seq<Attr>)
    requires AllSendable(a) && AllSendable(b)
    ensures AllSendable(a + b) && WireAll(a + b) == WireAll(a) + WireAll(b)
    decreases |a|
  {
    hide Wire;
    if a == [] {
      assert a + b == b;
    } else {
      assert Sendable(a[0]) && (a + b)[1..] == a[1..] + b;
      WireAllConcat(a[1..], b);
    }
  }

  lemma WireOne(a: Attr)
    requires Sendable(a)
    ensures AllSendable([a]) && WireAll([a]) == Wire(a)
  {
    hide Wire;
    var none: seq<Attr> := [];
    assert [a][1..] == none && WireAll(none) == [];
  }

  /** An upper bound for the size of a list of attributes. */
  function TotalSize(attrs: seq<Attr>): nat {
    if attrs == [] then 0 else AVP_HDR + |attrs[0].value| + TotalSize(attrs[1..])
  }

  lemma {:induction false} WireAllSize(attrs: seq<Attr>)
    requires AllSendable(attrs)
    ensures |WireAll(attrs)| == TotalSize(attrs)
  {
    if attrs != [] {
      WireAllSize(attrs[1..]);
    }
  }

  lemma NextOnWire(attrs: seq<Attr>, i: nat)
    requires AllSendable(attrs) && i < |attrs|
    ensures Sendable(attrs[i]) && WireAll(attrs[..i + 1]) == WireAll(attrs[..i]) + Wire(attrs[i])
    ensures |WireAll(attrs[..i])| + |Wire(attrs[i])| <= TotalSize(attrs)
  {
    hide Wire;
    assert Sendable(attrs[i]);
    WireOne(attrs[i]);
    WireAllConcat(attrs[..i], [attrs[i]]);
    WireAllConcat(attrs[..i + 1], attrs[i + 1..]);
    assert attrs[..i + 1] == attrs[..i] + [attrs[i]] && attrs == attrs[..i + 1] + attrs[i + 1..];
    WireAllSize(attrs);
  }

  predicate Within(attrs: seq<Attr>, n: nat) {
    AllSendable(attrs) && TotalSize(attrs) <= n
  }

  lemma WithinBoth(a: seq<Attr>, b: seq<Attr>, m: nat, n: nat)
    requires Within(a, m) && Within(b, n)
    ensures Within(a + b, m + n)
  {
    hide Sendable, Wire;
    WireAllConcat(a, b);
    WireAllSize(a);
    WireAllSize(b);
    WireAllSize(a + b);
  }

  lemma {:induction false} EachWithin(attrs: seq<Attr>, n: nat)
    requires AllSendable(attrs) && forall a <- attrs :: |a.value| <= n
    ensures Within(attrs, |attrs| * (AVP_HDR + n))
  {
    if attrs != [] {
      EachWithin(attrs[1..], n);
      assert |attrs[1..]| * (AVP_HDR + n) + (AVP_HDR + n) == |attrs| * (AVP_HDR + n);
    }
  }

  lemma IntroductionWithin(fc: u16, bc: u16, host: seq<byte>, tid: u16)
    ensures Within(Introduction(fc, bc, host, tid), 1101)
  {
    var all := Introduction(fc, bc, host, tid);
    assert forall a <- all :: Sendable(a);
    EachWithin(all[..4], 4);
    EachWithin(all[4..5], VALUE_MAX);
    EachWithin(all[5..], 13);
    assert all == all[..4] + all[4..5] + all[5..];
    hide *;
    WithinBoth(all[..4], all[4..5], 40, 1023);
    WithinBoth(all[..4] + all[4..5], all[5..], 1063, 38);
  }

  lemma OptionalsWithin(rws: Opt<u16>, response: Opt<seq<byte>>, challenge: Opt<seq<byte>>)
    requires response.Some? ==> |response.value| == SIG_SIZE
    requires challenge.Some? ==> |challenge.value| <= VALUE_MAX
    ensures Within(OptRws(rws) + OptAttr(13, response) + OptAttr(11, challenge), 2054)
  {
    EachWithin(OptRws(rws), 2);
    EachWithin(OptAttr(13, response), VALUE_MAX);
    EachWithin(OptAttr(11, challenge), VALUE_MAX);
    assert Within(OptRws(rws), 8) && Within(OptAttr(13, response), 1023) && Within(OptAttr(11, challenge), 1023);
    hide *;
    WithinBoth(OptRws(rws), OptAttr(13, response), 8, 1023);
    WithinBoth(OptRws(rws) + OptAttr(13, response), OptAttr(11, challenge), 1031, 1023);
  }

  lemma ShortBody(m: Message)
    requires Sized(m) && !m.Sccrq? && !m.Sccrp?
    ensures AllSendable(Body(m)) && |Body(m)| <= 3
  {
    match m
    case Scccn(_, response) => assert forall a <- Body(m) :: a == Attr(true, 13, response.value) && Sendable(a);
    case StopCcn(_, tid, result, error, text) =>
      assert Sendable(Attr(true, 9, Be16(tid))) && Sendable(Codes(result, error, text));
    case Cdn(_, result, error, text, cid) =>
      assert Sendable(Attr(true, 14, Be16(cid))) && Sendable(Codes(result, error, text));
    case _ =>
  }

  lemma ShortBodyWithin(m: Message)
    requires Sized(m) && !m.Sccrq? && !m.Sccrp?
    ensures Within(Body(m), 3155)
  {
    ShortBody(m);
    hide Body, Sized;
    assert forall a <- Body(m) :: Sendable(a);
    EachWithin(Body(m), VALUE_MAX);
  }

  lemma LongBodyParts(m: Message)
    requires m.Sccrq? || m.Sccrp?
    ensures var response := if m.Sccrp? then m.response else None;
            Body(m) == Introduction(m.fc, m.bc, m.host, m.tid)
                       + (OptRws(m.rws) + OptAttr(13, response) + OptAttr(11, m.challenge))
  {
    hide Introduction;
  }

  lemma LongBodyWithin(m: Message)
    requires Sized(m) && (m.Sccrq? || m.Sccrp?)
    ensures Within(Body(m), 3155)
  {
    LongBodyParts(m);
    hide Body, Introduction, OptRws, OptAttr, Within;
    var response := if m.Sccrp? then m.response else None;
    var rest := OptRws(m.rws) + OptAttr(13, response) + OptAttr(11, m.challenge);
    IntroductionWithin(m.fc, m.bc, m.host, m.tid);
    OptionalsWithin(m.rws, response, m.challenge);
    WithinBoth(Introduction(m.fc, m.bc, m.host, m.tid), rest, 1101, 2054);
  }

  lemma BodyWithin(m: Message)
    requires Sized(m)
    ensures Within(Body(m), 3155)
  {
    hide *;
    if m.Sccrq? || m.Sccrp? {
      LongBodyWithin(m);
    } else {
      ShortBodyWithin(m);
    }
  }

  /** Every message of the daemon fits in a buffer behind the control header. */
  lemma MessageFits(m: Message)
    requires Sized(m)
    ensures AllSendable(Attrs(m)) && HEADER_SPACE + |WireAll(Attrs(m))| <= BUFFER_SIZE
  {
    var head := [Attr(true, 0, Be16(TypeOf(m)))];
    EachWithin(head, 2);
    EachWithin(Vectors(m), SIG_SIZE);
    BodyWithin(m);
    assert Within(head, 8) && Within(Vectors(m), 22);
    assert Attrs(m) == head + Vectors(m) + Body(m);
    hide Body, Vectors, Attrs, Wire, Sendable;
    WithinBoth(head, Vectors(m), 8, 22);
    WithinBoth(head + Vectors(m), Body(m), 30, 3155);
    WireAllSize(Attrs(m));
  }

  class Outgoing {
    const data: array<byte>
    var start: nat
    var len: nat

    ghost predicate Valid()
      reads this
    {
      data.Length == BUFFER_SIZE && start + len <= BUFFER_SIZE
    }

    ghost function Contents(): seq<byte>
      requires Valid()
      reads this, data
    {
      data[start..start + len]
    }

    constructor ()
      ensures Valid() && fresh(data) && start == HEADER_SPACE && Contents() == []
    {
      data := new byte[BUFFER_SIZE];
      start, len := HEADER_SPACE, 0;
    }

    /** Write bytes behind what is there. */
    method Append(bytes: seq<byte>)
      requires Valid() && start + len + |bytes| <= BUFFER_SIZE
      modifies this`len, data
      ensures Valid() && start == old(start) && Contents() == old(Contents()) + bytes
    {
      forall i | 0 <= i < |bytes| {
        data[start + len + i] := bytes[i];
      }
      len := len + |bytes|;
      assert data[start..start + old(len)] == old(Contents());
      assert data[start + old(len)..start + len] == bytes;
    }

    /** Add one attribute, header first. */
    method AddAvp(a: Attr)
      requires Valid() && Sendable(a) && start + len + |Wire(a)| <= BUFFER_SIZE
      modifies this`len, data
      ensures Valid() && start == old(start) && Contents() == old(Contents()) + Wire(a)
    {
      var word := (if a.mandatory then 0x8000 else 0) + AVP_HDR + |a.value|;
      assert Contents() + WireHeader(word, 0, a.attr) + a.value == Contents() + Wire(a);
      Append(WireHeader(word, 0, a.attr));
      Append(a.value);
    }

    /** Add a list of attributes. */
    method AddAll(attrs: seq<Attr>)
      requires Valid() && AllSendable(attrs) && start + len + TotalSize(attrs) <= BUFFER_SIZE
      modifies this`len, data
      ensures Valid() && start == old(start) && Contents() == old(Contents()) + WireAll(attrs)
    {
      ghost var before := Contents();
      for i := 0 to |attrs|
        invariant Valid() && start == old(start)
        invariant Contents() == before + WireAll(attrs[..i])
      {
        NextOnWire(attrs, i);
        hide Wire, WireAll, TotalSize, AllSendable, Sendable;
        assert |Contents()| == |before| + |WireAll(attrs[..i])|;
        AddAvp(attrs[i]);
      }
      assert attrs[..|attrs|] == attrs;
    }

    /** Build a whole message. */
    method AddMessage(m: Message)
      requires Valid() && Sized(m) && start == HEADER_SPACE && len == 0
      modifies this`len, data
      ensures Valid() && AllSendable(Attrs(m)) && Contents() == WireAll(Attrs(m))
    {
      MessageFits(m);
      WireAllSize(Attrs(m));
      assert Contents() == [];
      hide Attrs, WireAll, AllSendable;
      AddAll(Attrs(m));
    }
  }
}
