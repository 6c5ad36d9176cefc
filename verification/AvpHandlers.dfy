/** The value handlers of the attributes an L2TP control message may carry, and the
    message type check that guards the tunnel and call states (section 7.2.1 of
    RFC 2661). Sanity checking is on. */
module AvpHandlers {
  import opened Words
  import opened HiddenAvp

  const SCCRQ := 1
  const SCCRP := 2
  const SCCCN := 3
  const STOPCCN := 4
  const HELLO := 6
  const OCRQ := 7
  const OCRP := 8
  const OCCN := 9
  const ICRQ := 10
  const ICRP := 11
  const ICCN := 12
  const CDN := 14

  const NAME_MAX := 119  // one less than the size of a stored string
  const SIG_SIZE := 16

  const ERROR_RESERVED := 3
  const ERROR_LENGTH := 2
  const VENDOR_ERROR := 6
  const RESULT_ERROR := 2

  datatype Challenge = NoChallenge | Challenge(bytes: seq<byte>)

  /** What the peer tells about the tunnel. */
  datatype TunnelInfo = TunnelInfo(
    state: int, tid: int, qtid: int, fc: int, bc: int, firmware: int, rws: int,
    hostname: seq<byte>, vendor: seq<byte>, challenge: Challenge, reply: seq<byte>, vector: Vector)

  /** What the peer tells about the call a message came in on: the tunnel's own, or one of
      its list, perhaps the first. */
  datatype CallInfo = CallInfo(
    isSelf: bool, isHead: bool, state: int, msgtype: int, cid: int, qcid: int, frame: int, txspeed: int,
    rxspeed: int, ppd: int, seqRequired: bool, needClose: bool, result: int, error: int, errormsg: seq<byte>)

  /** A call of the tunnel's list. */
  datatype ListedCall = ListedCall(cid: int, serno: int, bearer: int, physchan: int,
                                   dialed: seq<byte>, dialing: seq<byte>, subaddress: seq<byte>)

  const FRESH_CALL := ListedCall(0, 0, -1, -1, [], [], [])

  /** Everything the handlers read and write; `calls` is the tunnel's list, latest first. */
  datatype Session = Session(t: TunnelInfo, c: CallInfo, calls: seq<ListedCall>) {
    /** A call that is not the tunnel's own is on the list; the first call and the one the
        message came in on may be one record. */
    predicate Consistent() {
      && (!c.isSelf ==> calls != [])
      && (c.isHead ==> !c.isSelf && calls[0].cid == c.cid)
    }

    /** Record an error and ask for the call to be closed. */
    function SetError(error: int): Session {
      this.(c := c.(error := error, result := RESULT_ERROR, needClose := true))
    }

    function WrongLength(): Session {
      SetError(ERROR_LENGTH)
    }

    /** The call taken to be the one being set up. Without one there is nothing to write to,
        and no handler gets here. */
    function Head(): ListedCall {
      if calls == [] then FRESH_CALL else calls[0]
    }

    function WithHead(p: ListedCall): Session {
      if calls == [] then this
      else this.(calls := [p] + calls[1..], c := if c.isHead then c.(cid := p.cid) else c)
    }

    function NewCall(): Session {
      this.(calls := [FRESH_CALL] + calls, c := c.(isHead := false))
    }

    function WithCid(cid: int): Session {
      this.(c := c.(cid := cid),
            calls := if c.isHead && calls != [] then [calls[0].(cid := cid)] + calls[1..] else calls)
    }
  }

  datatype Handled = Handled(s: Session, ok: bool)

  /** The word at an even offset of the value, zero past the end of the buffer. */
  function Word(data: seq<byte>, i: nat): u16 {
    if i + 2 <= |data| then Get16(data, i) else 0
  }

  function Long(data: seq<byte>): u32 {
    Word(data, 0) as int * 0x1_0000 + Word(data, 2) as int
  }

  /** A stored string: cut to its maximum and at the first zero byte. */
  function CString(s: seq<byte>): (r: seq<byte>)
    ensures r <= s && 0 !in r && (|r| < |s| ==> s[|r|] == 0)
  {
    if s == [] || s[0] == 0 then [] else [s[0]] + CString(s[1..])
  }

  function Name(data: seq<byte>, n: nat): seq<byte>
    requires n <= |data|
  {
    CString(data[..if n > NAME_MAX then NAME_MAX else n])
  }

  predicate KnownType(m: int) {
    1 <= m <= 16 && m != 5 && m != 13
  }

  /** The states in which a message may arrive. */
  predicate StateAllows(s: Session, m: int) {
    && (!s.c.isSelf ==> m >= HELLO)
    && match m
       case 1 => s.t.state == 0 || s.t.state == SCCRQ
       case 2 => s.t.state == SCCRQ
       case 3 => s.t.state == SCCRP
       case 10 => s.t.state == SCCCN && s.c.isSelf
       case 11 => s.t.state == SCCCN && s.c.state == ICRQ
       case 12 => s.c.state == ICRP
       case 16 => s.c.state == ICCN
       case 8 => s.t.state == SCCCN && s.c.state == OCRQ
       case 9 => s.c.state == OCRQ
       case 4 => true
       case 14 => true
       case 6 => true
       case _ => false
  }

  function MessageType(s: Session, n: nat, data: seq<byte>): Handled {
    var m := Word(data, 0);
    var s1 := s.(c := s.c.(msgtype := m));
    if n != 2 then Handled(s1.WrongLength(), false)
    else if !KnownType(m) || !StateAllows(s1, m) then Handled(s1, false)
    else Handled(if m == ICRQ then s1.NewCall() else s1, true)
  }

  /** Codes sent in host order by some peers are put right. */
  function FixOrder(x: u16): u16 {
    if x % 0x100 == 0 && x / 0x100 != 0 then x / 0x100 else x
  }

  function ResultCode(s: Session, n: nat, data: seq<byte>): Handled
    requires n <= |data|
  {
    var m, result := s.c.msgtype, FixOrder(Word(data, 0));
    if n < 2 then Handled(s.WrongLength(), false)
    else if m != CDN && m != STOPCCN then Handled(s, true)
    else if result < 1 || result > (if m == STOPCCN then 7 else 11) then Handled(s, true)
    else
      var error := if n >= 4 then FixOrder(Word(data, 2)) else -1;
      var text := if n > 4 then Name(data[4..], n - 4) else [];
      Handled(s.(c := s.c.(error := error, result := result, errormsg := text)), true)
  }

  predicate IsSetup(m: int) {
    m == SCCRQ || m == SCCRP
  }

  /** A handler that applies to some message types only, with a value of fixed size. */
  function Fixed(s: Session, applies: bool, n: nat, size: nat, s1: Session): Handled {
    if !applies then Handled(s, true)
    else if n != size then Handled(s.WrongLength(), false)
    else Handled(s1, true)
  }

  predicate HasHandler(attr: nat) {
    attr <= 39 && attr !in {5, 12, 16, 17, 26, 27, 28, 34, 37}
  }

  /** The handler of `attr` writes to the first call of the list, without asking if there is one. */
  predicate WritesHead(attr: nat, m: int, n: nat) {
    match attr
    case 14 => m == ICRQ && n == 2
    case 15 => m == ICRQ || m == OCRQ
    case 18 => (m == ICRQ || m == OCRQ) && n == 4
    case 21 => m == OCRQ || m == ICRQ
    case 22 => m == ICRQ
    case 23 => m == OCRP || m == ICRQ
    case 25 => (m == ICRQ || m == OCRQ || m == OCRP || m == OCCN) && n == 4
    case _ => false
  }

  /** The handler of `attr` finds that the message is not one for it, and logs its name. Some
      handlers check the length first. */
  predicate Inapplicable(attr: nat, m: int, n: nat) {
    match attr
    case 1 => n >= 2 && m != CDN && m != STOPCCN
    case 2 => n == 2 && !IsSetup(m)
    case 3 => !IsSetup(m)
    case 4 => !IsSetup(m)
    case 6 => !IsSetup(m)
    case 7 => !IsSetup(m)
    case 8 => !IsSetup(m)
    case 9 => !IsSetup(m) && m != STOPCCN
    case 10 => !IsSetup(m) && m != OCRP && m != OCCN && m != STOPCCN
    case 11 => !IsSetup(m)
    case 13 => m != SCCRP && m != SCCCN
    case 14 => m != CDN && m != ICRP && m != ICRQ && m != OCRP
    case 15 => m != ICRQ && m != OCRQ
    case 18 => m != ICRQ && m != OCRQ
    case 19 => m != ICCN && m != OCRQ && m != OCCN
    case 20 => m != ICRP && m != OCRQ && m != ICCN && m != OCRP && m != OCCN
    case 21 => m != OCRQ && m != ICRQ
    case 22 => m != ICRQ
    case 23 => m != OCRP && m != ICRQ
    case 24 => m != ICCN && m != OCCN && m != OCRP
    case 25 => m != ICRQ && m != OCRQ && m != OCRP && m != OCCN
    case 38 => m != ICCN && m != OCCN && m != OCRP
    case 39 => n == 0 && m != ICCN
    case _ => false
  }

  /** The table of message names has an entry for `m`. */
  predicate Named(m: int) {
    0 <= m <= 16
  }

  /** Accesses to memory: all to what is there, or one past the end of the packet's buffer, to
      the first call of a tunnel that has none, or outside the table of message names. */
  datatype Access = Fine | Past | Null | Unnamed

  /** What the handler of `attr` accesses beside the value. */
  function AccessOf(s: Session, attr: nat, n: nat): Access {
    if WritesHead(attr, s.c.msgtype, n) && s.calls == [] then Null
    else if Inapplicable(attr, s.c.msgtype, n) && !Named(s.c.msgtype) then Unnamed
    else Fine
  }

  /** Run the handler of `attr` on a value of `n` bytes that starts `data`. */
  function Run(s: Session, attr: nat, n: nat, data: seq<byte>): Handled
    requires HasHandler(attr) && n <= |data|
  {
    var m := s.c.msgtype;
    match attr
    case 0 => MessageType(s, n, data)
    case 1 => ResultCode(s, n, data)
    case 2 => Fixed(s, true, n, 2, s)
    case 3 => Fixed(s, IsSetup(m), n, 4, s.(t := s.t.(fc := Word(data, 2) % 4)))
    case 4 => Fixed(s, IsSetup(m), n, 4, s.(t := s.t.(bc := Word(data, 2) % 4)))
    case 6 => Fixed(s, IsSetup(m), n, 2, s.(t := s.t.(firmware := Word(data, 0))))
    case 7 => Handled(if IsSetup(m) then s.(t := s.t.(hostname := Name(data, n))) else s, true)
    case 8 => Handled(if IsSetup(m) then s.(t := s.t.(vendor := Name(data, n))) else s, true)
    case 9 => Fixed(s, IsSetup(m) || m == STOPCCN, n, 2,
                    if m == STOPCCN then s.(t := s.t.(qtid := Word(data, 0))) else s.(t := s.t.(tid := Word(data, 0))))
    case 10 => Fixed(s, IsSetup(m) || m == OCRP || m == OCCN || m == STOPCCN, n, 2, s.(t := s.t.(rws := Word(data, 0))))
    case 11 => Handled(if IsSetup(m) then s.(t := s.t.(challenge := Challenge(data[..n]))) else s, true)
    case 13 =>
      if m != SCCRP && m != SCCCN then Handled(s, true)
      else if n != SIG_SIZE then Handled(s, false)
      else Handled(s.(t := s.t.(reply := data[..n])), true)
    case 14 => Fixed(s, m == CDN || m == ICRP || m == ICRQ || m == OCRP, n, 2,
                     if m == CDN then s.(c := s.c.(qcid := Word(data, 0)))
                     else if m == ICRQ then s.WithHead(s.Head().(cid := Word(data, 0)))
                     else s.WithCid(Word(data, 0)))
    case 15 => Handled(if m == ICRQ || m == OCRQ then s.WithHead(s.Head().(serno := Long(data))) else s, true)
    case 18 => Fixed(s, m == ICRQ || m == OCRQ, n, 4, s.WithHead(s.Head().(bearer := Word(data, 2))))
    case 19 => Fixed(s, m == ICCN || m == OCRQ || m == OCCN, n, 4, s.(c := s.c.(frame := Word(data, 2))))
    case 20 => Fixed(s, m == ICRP || m == OCRQ || m == ICCN || m == OCRP || m == OCCN, n, 2,
                     s.(c := s.c.(ppd := Word(data, 0))))
    case 21 => Handled(if m == OCRQ || m == ICRQ then s.WithHead(s.Head().(dialed := Name(data, n))) else s, true)
    case 22 => Handled(if m == ICRQ then s.WithHead(s.Head().(dialing := Name(data, n))) else s, true)
    case 23 => Handled(if m == OCRP || m == ICRQ then s.WithHead(s.Head().(subaddress := Name(data, n))) else s, true)
    case 24 => Fixed(s, m == ICCN || m == OCCN || m == OCRP, n, 4, s.(c := s.c.(txspeed := Long(data))))
    case 25 => Fixed(s, m == ICRQ || m == OCRQ || m == OCRP || m == OCCN, n, 4,
                     s.WithHead(s.Head().(physchan := Long(data))))
    case 36 => Handled(s.(t := s.t.(vector := Vector(data[..n]))), true)
    case 38 => Fixed(s, m == ICCN || m == OCCN || m == OCRP, n, 4, s.(c := s.c.(rxspeed := Long(data))))
    case 39 =>
      if n != 0 then Handled(s.WrongLength(), false)
      else if m != ICCN then Handled(s, false)
      else Handled(s.(c := s.c.(seqRequired := true)), true)
    case _ => Handled(s, true)
  }

  /** What no handler but that of the Message Type changes, and what only some messages may. */
  predicate Framed(s: Session, r: Session) {
    && r.c.msgtype == s.c.msgtype && r.t.state == s.t.state && r.c.state == s.c.state && r.c.isSelf == s.c.isSelf
    && |r.calls| == |s.calls| && (s.c.needClose ==> r.c.needClose)
    && (r.t.reply != s.t.reply ==> s.c.msgtype == SCCRP || s.c.msgtype == SCCCN)
    && (r.t.hostname != s.t.hostname ==> IsSetup(s.c.msgtype))
  }

  lemma ResultFrame(s: Session, n: nat, data: seq<byte>)
    requires n <= |data|
    ensures Framed(s, ResultCode(s, n, data).s)
  {
    hide Name, Word, FixOrder, IsSetup;
  }

  lemma TunnelFrame(s: Session, attr: nat, n: nat, data: seq<byte>)
    requires HasHandler(attr) && 0 < attr <= 13 && n <= |data|
    ensures Framed(s, Run(s, attr, n, data).s)
  {
    hide Name, Word, Long, ResultCode, IsSetup;
    if attr == 1 {
      ResultFrame(s, n, data);
    }
  }

  /** Handlers that write to the first call of the list. */
  predicate OfHead(attr: nat) {
    attr in {15, 18, 21, 22, 23, 25}
  }

  lemma HeadFrame(s: Session, attr: nat, n: nat, data: seq<byte>)
    requires OfHead(attr) && n <= |data|
    ensures Framed(s, Run(s, attr, n, data).s)
  {
    var r := Run(s, attr, n, data).s;
    assert r == s || r == s.WrongLength() || exists p :: r == s.WithHead(p) by {
      hide Name, Word, Long, Session.WithHead, Session.Head, Session.SetError;
    }
    hide Run;
  }

  lemma CidFrame(s: Session, n: nat, data: seq<byte>)
    requires n <= |data|
    ensures Framed(s, Run(s, 14, n, data).s)
  {
    hide Name, Word, Long, IsSetup;
  }

  lemma CallFrame(s: Session, attr: nat, n: nat, data: seq<byte>)
    requires HasHandler(attr) && attr > 14 && !OfHead(attr) && n <= |data|
    ensures Framed(s, Run(s, attr, n, data).s)
  {
    hide Name, Word, Long, IsSetup, Session.WithHead, Session.WithCid, Session.Head;
  }

  lemma RunFrame(s: Session, attr: nat, n: nat, data: seq<byte>)
    requires HasHandler(attr) && attr != 0 && n <= |data|
    ensures Framed(s, Run(s, attr, n, data).s)
  {
    hide Run, Framed;
    if attr <= 13 {
      TunnelFrame(s, attr, n, data);
    } else if attr == 14 {
      CidFrame(s, n, data);
    } else if OfHead(attr) {
      HeadFrame(s, attr, n, data);
    } else {
      CallFrame(s, attr, n, data);
    }
  }

  lemma TypeFrame(s: Session, n: nat, data: seq<byte>)
    ensures var r := MessageType(s, n, data).s;
            && r.t == s.t && r.c.state == s.c.state && r.c.isSelf == s.c.isSelf && |r.calls| >= |s.calls|
            && (s.c.needClose ==> r.c.needClose)
  {
    hide Word;
  }
}
