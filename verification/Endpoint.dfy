/** One end of the reliable control channel: numbering, acknowledging and
    retransmitting control messages (section 5.8 of RFC 2661).

    The functions are the specification; the classes hold the fields the daemon
    updates in place, and every method is proved to do what its function says. */
module Endpoint {
  import opened Words

  const CONTROL_HDR_SIZE := 12
  const CONTROL_VER: u16 := 0xC802  // T, L and F bits, version 2
  const MAX_BODY := 4084            // 4096-byte buffer less the header

  datatype Header = Header(ver: u16, length: u16, tid: u16, cid: u16, ns: u16, nr: u16)

  /** A control packet; an empty body makes it a zero-length body message (ZLB). */
  datatype Packet = Packet(header: Header, body: seq<byte>)

  /** The sequencing fields of a tunnel. */
  datatype TunnelView = TunnelView(seqNum: u16, recSeqNum: u16, cLr: int, tid: int)

  /** The closing and acknowledgement fields of a call record. */
  datatype CallView = CallView(needClose: bool, closing: bool, cnu: bool, closeSs: u16, cid: u16)

  datatype CheckResult = CheckResult(t: TunnelView, c: CallView, ok: bool, reply: seq<Packet>)

  /** What became of a packet: a body is delivered upwards only if accepted. */
  datatype HandleResult = HandleResult(t: TunnelView, c: CallView, delivered: bool, reply: seq<Packet>)

  datatype XmitResult = Tossed | GivenUp | Sent(delay: nat)

  function Wrap(x: int): u16 {
    x % 0x1_0000
  }

  /** The header and body of the next packet of a tunnel. */
  function Numbered(t: TunnelView, cid: u16, body: seq<byte>): Packet {
    Packet(Header(CONTROL_VER, Wrap(CONTROL_HDR_SIZE + |body|), Wrap(t.tid), cid, t.seqNum, t.recSeqNum), body)
  }

  /** The version word has the T, L and F bits and names L2TP. */
  predicate VersionOk(ver: u16) {
    ver / 0x8000 == 1 && ver / 0x4000 % 2 == 1 && ver / 0x800 % 2 == 1 && ver % 8 == 2
  }

  /** The packet's number counts as one already received. */
  predicate Stale(ns: u16, expected: u16) {
    || (ns < expected && expected - ns < 32768)
    || (ns > expected && expected - ns > 32768)
  }

  function Check(t: TunnelView, c: CallView, p: Packet): CheckResult {
    if CONTROL_HDR_SIZE + |p.body| != p.header.length then
      CheckResult(t, c, false, [])
    else if p.header.ns != t.recSeqNum then
      if Stale(p.header.ns, t.recSeqNum) then
        CheckResult(t, c, false, if p.body != [] then [Numbered(t, c.cid, [])] else [])
      else if t.recSeqNum == 0 && t.tid == -1 then
        CheckResult(t, c.(needClose := false, closing := true), false, [])
      else
        CheckResult(t, c, false, [])
    else
      CheckResult(t.(recSeqNum := Wrap(t.recSeqNum + 1), cLr := p.header.nr), c.(cnu := true),
                  VersionOk(p.header.ver), [])
  }

  /** A packet whose tunnel and call are both known. */
  function Handle(t: TunnelView, c: CallView, p: Packet): HandleResult {
    var k := Check(t, c, p);
    if !k.ok then
      HandleResult(k.t, k.c, false, k.reply)
    else if p.body == [] then
      var acked := k.c.needClose && k.c.closing && k.t.cLr >= k.c.closeSs;
      HandleResult(k.t.(recSeqNum := Wrap(k.t.recSeqNum - 1)),
                   k.c.(cnu := false, needClose := k.c.needClose && !acked), false, [])
    else
      HandleResult(k.t, k.c, true, [])
  }

  /** A packet for a known tunnel but an unknown call, handled on the tunnel's
      own call record. A ZLB leaves the expected number advanced. */
  function HandleSpecial(t: TunnelView, self: CallView, p: Packet, call: u16): HandleResult {
    var k := Check(t, self.(cid := call), p);
    if k.ok && p.body != [] then
      HandleResult(k.t, k.c.(cid := 0), true, [Numbered(k.t, call, [])])
    else
      HandleResult(k.t, k.c.(cid := 0), false, k.reply)
  }

  /** The pause after the `retries`-th transmission: 1, 2, 4, ... seconds. */
  function Delay(retries: nat): nat
    requires retries > 0
  {
    Pow2(if retries - 1 > 31 then 31 else retries - 1)
  }

  function Pow2(n: nat): nat {
    if n == 0 then 1 else 2 * Pow2(n - 1)
  }

  /** One run of the transmit timer on a buffer that has been tried `retries` times. */
  function Xmit(ns: u16, cLr: int, retries: nat, maxRetries: nat): XmitResult {
    if ns < cLr then Tossed
    else if retries + 1 > maxRetries then GivenUp
    else Sent(Delay(retries + 1))
  }

  // ----- the daemon's records -----

  class ControlBuffer {
    const packet: Packet
    var retries: nat

    constructor (packet: Packet)
      ensures this.packet == packet && retries == 0
    {
      this.packet := packet;
      retries := 0;
    }
  }

  class CallRecord {
    var needClose: bool
    var closing: bool
    var cnu: bool
    var closeSs: u16
    var cid: u16

    ghost function View(): CallView
      reads this
    {
      CallView(needClose, closing, cnu, closeSs, cid)
    }
  }

  class Tunnel {
    var controlSeqNum: u16
    var controlRecSeqNum: u16
    var cLr: int
    var tid: int
    const self: CallRecord

    ghost function View(): TunnelView
      reads this
    {
      TunnelView(controlSeqNum, controlRecSeqNum, cLr, tid)
    }

    constructor (self: CallRecord)
      ensures this.self == self
    {
      this.self := self;
    }

    method AddControlHdr(c: CallRecord, body: seq<byte>) returns (p: Packet)
      modifies this`controlSeqNum
      ensures p == old(Numbered(View(), c.cid, body))
      ensures View() == old(View()).(seqNum := Wrap(old(controlSeqNum) + 1))
    {
      p := Packet(Header(CONTROL_VER, Wrap(CONTROL_HDR_SIZE + |body|), Wrap(tid), c.cid,
                         controlSeqNum, controlRecSeqNum), body);
      controlSeqNum := Wrap(controlSeqNum + 1);
    }

    method ControlZlb(c: CallRecord) returns (p: Packet)
      modifies this`controlSeqNum
      ensures p == old(Numbered(View(), c.cid, []))
      ensures View() == old(View())
    {
      p := AddControlHdr(c, []);
      controlSeqNum := Wrap(controlSeqNum - 1);
    }

    method CheckControl(p: Packet, c: CallRecord) returns (ok: bool, reply: seq<Packet>)
      modifies this, c
      ensures CheckResult(View(), c.View(), ok, reply) == old(Check(View(), c.View(), p))
      ensures self != c ==> self.View() == old(self.View())
    {
      reply := [];
      var h := p.header;
      if CONTROL_HDR_SIZE + |p.body| != h.length {
        return false, [];
      }
      if h.ns != controlRecSeqNum {
        if Stale(h.ns, controlRecSeqNum) {
          if p.body != [] {
            var zlb := ControlZlb(c);
            reply := [zlb];
          }
        } else if controlRecSeqNum == 0 && tid == -1 {
          c.needClose := false;
          c.closing := true;
        }
        return false, reply;
      }
      controlRecSeqNum := Wrap(controlRecSeqNum + 1);
      c.cnu := true;
      cLr := h.nr;
      ok := VersionOk(h.ver);
    }

    method HandleControl(p: Packet, c: CallRecord) returns (delivered: bool, reply: seq<Packet>)
      modifies this, c
      ensures HandleResult(View(), c.View(), delivered, reply) == old(Handle(View(), c.View(), p))
    {
      var ok;
      ok, reply := CheckControl(p, c);
      delivered := false;
      if !ok {
        return;
      }
      if p.body == [] {
        controlRecSeqNum := Wrap(controlRecSeqNum - 1);
        c.cnu := false;
        if c.needClose && c.closing {
          if cLr >= c.closeSs {
            c.needClose := false;
          }
        }
        return;
      }
      delivered := true;
    }

    method HandleUnknownCall(p: Packet, call: u16) returns (delivered: bool, reply: seq<Packet>)
      modifies this, self
      ensures HandleResult(View(), self.View(), delivered, reply) == old(HandleSpecial(View(), self.View(), p, call))
    {
      self.cid := call;
      var ok;
      ok, reply := CheckControl(p, self);
      delivered := false;
      if ok {
        if p.body != [] {
          var zlb := ControlZlb(self);
          reply := [zlb];
          delivered := true;
        }
      }
      self.cid := 0;
    }

    method ControlXmit(buf: ControlBuffer, maxRetries: nat) returns (r: XmitResult)
      modifies buf
      ensures r == old(Xmit(buf.packet.header.ns, cLr, buf.retries, maxRetries))
      ensures buf.retries == old(buf.retries) + 1
    {
      buf.retries := buf.retries + 1;
      if buf.packet.header.ns < cLr {
        return Tossed;
      }
      if buf.retries > maxRetries {
        return GivenUp;
      }
      var shift := buf.retries - 1;
      if shift > 31 {
        shift := 31;
      }
      return Sent(Pow2(shift));
    }
  }
}
