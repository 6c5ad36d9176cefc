/** A Message Type that fails its check under a clear M bit is passed over and the message
    acted on: what such packets do, and exactly when a message acted on is one the state
    allows. */
module UnmarkedTypes {
  import opened Words
  import opened HiddenAvp
  import opened AvpHandlers
  import opened AvpParser
  import opened WalkEffects
  import opened TunnelAuth
  import M = AvpMessages

  /** Whatever the packet: if it is accepted and leaves the call open, the message acted on
      is one the state allows exactly when the last Message Type in it passed its check. */
  lemma AllowedExactlyWhenPassed(buf: seq<byte>, at: nat, len: nat, s: Session, list: seq<ListedCall>, h: Hash,
                                 key: seq<byte>)
    requires at + len <= |buf|
    ensures var s0 := Fresh(s, list);
            var w := Walk(buf, at, len, true, s0, h, key);
            w.ok && !w.s.c.needClose ==> (TypeOk(w.s) <==> LastPassed(buf, at, len, true, s0, h, key, true))
  {
    FreshTypeOk(s, list);
    hide Walk, LastPassed, TypeOk;
    WalkPassed(buf, at, len, true, Fresh(s, list), h, key, true);
  }

  /** A tunnel about to be asked for is established by one packet only if that packet's last
      Message Type failed its check. */
  lemma EstablishedAtOnce(x: Tun, cfg: Config, h: Hash, e: Event)
    requires Starts(x, cfg) && cfg.role.Responder? && e.Message? && Possible(e)
    ensures var y := Next(x, e, cfg, h);
            Running(y) && y.s.t.state == SCCCN ==> !LastPassed(e.buf, e.at, e.len, true, Start(x, e), h, e.key, true)
  {
    hide Walk, LastPassed, Finish, TypeOk;
    AllowedExactlyWhenPassed(e.buf, e.at, e.len, x.s, e.list, h, e.key);
    WalkSteady(e.buf, e.at, e.len, true, Start(x, e), h, e.key);
    var w := Parsed(x, e, h);
    if w.ok {
      FinishEstablishes(x.(s := w.s), Owner(cfg.lac, false, w.s.c.result), cfg, h, e.env);
    }
  }

  lemma FinishEstablishes(x: Tun, o: Owner, cfg: Config, h: Hash, env: Env)
    requires x.s.t.state == 0
    ensures var y := Finish(x, o, cfg, h, env); Running(y) && y.s.t.state == SCCCN ==> !TypeOk(x.s) && !x.s.c.needClose
  {
    if x.s.c.needClose {
      FinishStaysDown(x, o, cfg, h, env);
    }
    FinishState(x, o, cfg, h, env);
    hide Finish;
  }

  /** Only an SCCRP or an SCCCN establishes a tunnel. */
  lemma FinishState(x: Tun, o: Owner, cfg: Config, h: Hash, env: Env)
    requires x.s.t.state == 0
    ensures Finish(x, o, cfg, h, env).s.t.state == SCCCN ==> x.s.c.msgtype == SCCRP || x.s.c.msgtype == SCCCN
  {
    hide Reply, Connected, Request, Stop, Disconnect, Answered, CallConnected, Initiate;
    RequestState(x, cfg, h, env);
    OtherStates(x, o, cfg, env);
  }

  lemma OtherStates(x: Tun, o: Owner, cfg: Config, env: Env)
    ensures Stop(x, o, cfg).s.t.state == Disconnect(x, env).s.t.state == x.s.t.state
    ensures Answered(x, o).s.t.state == CallConnected(x, o).s.t.state == x.s.t.state
    ensures Initiate(x, cfg, env).s.t.state == SCCRQ
  {
  }

  lemma RequestState(x: Tun, cfg: Config, h: Hash, env: Env)
    ensures Request(x, cfg, h, env).s.t.state in {x.s.t.state, SCCRP}
  {
    hide Digest, SecretFor;
  }

  // ----- packets -----

  /** The packet of `attrs`, with anything behind it, parsed from the front. */
  lemma BuiltParsed(attrs: seq<M.Attr>, rest: seq<byte>, s: Session, h: Hash, key: seq<byte>)
    requires M.AllSendable(attrs) && attrs != [] && attrs[0].attr == 0
    ensures var buf, r := M.WireAll(attrs), M.HandleAll(attrs, s);
            var w := Walk(buf + rest, 0, |buf|, true, s, h, key);
            w.ok == r.goOn && w.s == r.s && w.access == r.access
  {
    hide Walk, M.HandleAll, M.WireAll;
    M.WalkOfWire([], attrs, rest, true, s, h, key);
    assert [] + M.WireAll(attrs) + rest == M.WireAll(attrs) + rest;
  }

  lemma HandleNext(attrs: seq<M.Attr>, s: Session, s1: Session)
    requires M.AllSendable(attrs) && attrs != [] && M.Sendable(attrs[0])
    requires M.Handle(attrs[0], s) == M.Done(s1, true, Fine)
    ensures M.AllSendable(attrs[1..]) && M.HandleAll(attrs, s) == M.HandleAll(attrs[1..], s1)
  {
    hide M.Handle;
  }

  /** A Message Type of two bytes is taken for what it says, and passed over if its M bit is
      clear and the state does not allow it. */
  lemma TypeHandled(mandatory: bool, m: u16, s: Session)
    requires var allowed := KnownType(m) && StateAllows(s.(c := s.c.(msgtype := m)), m);
             if mandatory then allowed && m != ICRQ else !allowed
    ensures var a := M.Attr(mandatory, 0, Be16(m));
            M.Sendable(a) && M.Handle(a, s) == M.Done(s.(c := s.c.(msgtype := m)), true, Fine)
  {
    M.WordOfBe16(m, 0);
    hide Word, StateAllows;
  }

  // ----- a tunnel is established -----

  /** An SCCRP with its M bit clear, a framing capability and a tunnel identifier. */
  function Unasked(fc: u16, tid: u16): seq<M.Attr> {
    [M.Attr(false, 0, Be16(SCCRP)), M.Attr(true, 3, Be16(0) + Be16(fc)), M.Attr(true, 9, Be16(tid))]
  }

  lemma UnaskedHandled(s: Session, fc: u16, tid: u16)
    requires s.t.state == 0
    ensures M.AllSendable(Unasked(fc, tid))
    ensures M.HandleAll(Unasked(fc, tid), s)
         == M.Done(s.(t := s.t.(fc := fc % 4, tid := tid), c := s.c.(msgtype := SCCRP)), true, Fine)
  {
    var all, none: seq<M.Attr> := Unasked(fc, tid), [];
    var s1 := s.(c := s.c.(msgtype := SCCRP));
    var s2 := s1.(t := s1.t.(fc := fc % 4));
    var s3 := s2.(t := s2.t.(tid := tid));
    TypeHandled(false, SCCRP, s);
    M.WordOfBe16(0, fc);
    M.WordOfBe16(tid, 0);
    assert M.Handle(all[1], s1) == M.Done(s2, true, Fine) && M.Handle(all[2], s2) == M.Done(s3, true, Fine);
    hide M.Handle;
    assert all[1..] == [all[1], all[2]] && all[1..][1..] == [all[2]] && [all[2]][1..] == none;
    HandleNext(all, s, s1);
    HandleNext(all[1..], s1, s2);
    HandleNext([all[2]], s2, s3);
    assert M.HandleAll(none, s3) == M.Done(s3, true, Fine);
  }

  /** For every tunnel about to be asked for, one such packet establishes it, though no
      challenge has been sent and no secret could be looked up. */
  lemma UnmarkedTypeEstablishes(x: Tun, cfg: Config, h: Hash, key: seq<byte>, list: seq<ListedCall>, env: Env, fc: u16,
                                tid: u16)
    requires Starts(x, cfg) && cfg.role.Responder? && tid != 0
    ensures M.AllSendable(Unasked(fc, tid))
    ensures var buf := M.WireAll(Unasked(fc, tid));
            var y := Next(x, Message(buf, 0, |buf|, key, list, env), cfg, h);
            Running(y) && y.s.t.state == SCCCN && !y.them.challenged && !Proven(y, cfg, h)
  {
    var s0 := Fresh(x.s, list);
    UnaskedHandled(s0, fc, tid);
    var buf := M.WireAll(Unasked(fc, tid));
    BuiltParsed(Unasked(fc, tid), [], s0, h, key);
    assert buf + [] == buf;
    hide Walk, M.HandleAll, M.WireAll, Unasked, Digest;
  }

  // ----- the daemon dies -----

  /** An SCCCN with its M bit clear: the state is changed, and the name of an entry logged
      that nobody has looked up. */
  lemma UnmarkedConnectedDies(x: Tun, cfg: Config, h: Hash, key: seq<byte>, list: seq<ListedCall>, env: Env)
    requires Starts(x, cfg) && cfg.role.Responder?
    ensures var a := [M.Attr(false, 0, Be16(SCCCN))];
            && M.AllSendable(a)
            && var buf := M.WireAll(a); Next(x, Message(buf, 0, |buf|, key, list, env), cfg, h).dead
  {
    var s0, a, none: seq<M.Attr> := Fresh(x.s, list), [M.Attr(false, 0, Be16(SCCCN))], [];
    var s1 := s0.(c := s0.c.(msgtype := SCCCN));
    TypeHandled(false, SCCCN, s0);
    hide M.Handle;
    assert M.AllSendable(a) && a[1..] == none && M.HandleAll(none, s1) == M.Done(s1, true, Fine);
    HandleNext(a, s0, s1);
    var buf := M.WireAll(a);
    BuiltParsed(a, [], s0, h, key);
    assert buf + [] == buf;
    hide Walk, M.HandleAll, M.WireAll;
  }

  /** An ICRQ with its M bit clear and a call identifier. */
  function Headless(cid: u16): seq<M.Attr> {
    [M.Attr(false, 0, Be16(ICRQ)), M.Attr(true, 14, Be16(cid))]
  }

  lemma HeadlessHandled(s: Session, cid: u16)
    requires !(s.c.isSelf && s.t.state == SCCCN)
    ensures M.AllSendable(Headless(cid))
    ensures var s1 := s.(c := s.c.(msgtype := ICRQ));
            M.HandleAll(Headless(cid), s) ==
              if s.calls == [] then M.Done(s1, false, Null)
              else M.Done(s1.WithHead(s.calls[0].(cid := cid)), true, Fine)
  {
    var all, none: seq<M.Attr> := Headless(cid), [];
    var s1 := s.(c := s.c.(msgtype := ICRQ));
    TypeHandled(false, ICRQ, s);
    M.WordOfBe16(cid, 0);
    assert M.Sendable(all[1]);
    HandleNext(all, s, s1);
    assert all[1..] == [all[1]] && [all[1]][1..] == none;
    if s.calls == [] {
      assert M.Handle(all[1], s1) == M.Done(s1, false, Null);
    } else {
      var s2 := s1.WithHead(s.calls[0].(cid := cid));
      assert M.Handle(all[1], s1) == M.Done(s2, true, Fine) by { hide Word; }
      hide M.Handle;
      HandleNext([all[1]], s1, s2);
      assert M.HandleAll(none, s2) == M.Done(s2, true, Fine);
    }
  }

  /** On a tunnel that is not established and has no calls, these 16 bytes are written to a
      call that is not there, whatever is behind them. */
  lemma UnmarkedRequestIsNull(s: Session, cid: u16, rest: seq<byte>, h: Hash, key: seq<byte>)
    requires s.calls == [] && s.t.state != SCCCN
    ensures M.AllSendable(Headless(cid))
    ensures var buf := M.WireAll(Headless(cid));
            |buf| == 16 && Walk(buf + rest, 0, |buf|, true, s, h, key).access == Null
  {
    HeadlessHandled(s, cid);
    HeadlessSize(cid);
    hide Walk, M.HandleAll, M.WireAll, Headless;
    BuiltParsed(Headless(cid), rest, s, h, key) by { HeadlessStarts(cid); }
  }

  lemma HeadlessStarts(cid: u16)
    ensures Headless(cid) != [] && Headless(cid)[0].attr == 0
  {
  }

  lemma HeadlessSize(cid: u16)
    requires M.AllSendable(Headless(cid))
    ensures |M.WireAll(Headless(cid))| == 16
  {
    var all, none: seq<M.Attr> := Headless(cid), [];
    assert all[1..] == [all[1]] && [all[1]][1..] == none;
    hide M.Wire;
    assert |M.WireAll(none)| == 0;
    assert |M.WireAll([all[1]])| == |M.Wire(all[1])| + |M.WireAll(none)|;
  }

  /** A message of no known name with its M bit clear, and an empty Host Name. */
  function Nameless(m: u16, mandatory: bool): seq<M.Attr> {
    [M.Attr(false, 0, Be16(m)), M.Attr(mandatory, 7, [])]
  }

  lemma NamelessHandled(s: Session, m: u16, mandatory: bool)
    requires !Named(m)
    ensures M.AllSendable(Nameless(m, mandatory))
    ensures M.HandleAll(Nameless(m, mandatory), s) == M.Done(s.(c := s.c.(msgtype := m)), false, Unnamed)
    ensures |M.WireAll(Nameless(m, mandatory))| == 14
  {
    var all, none: seq<M.Attr> := Nameless(m, mandatory), [];
    TypeHandled(false, m, s);
    assert M.Sendable(all[1]);
    HandleNext(all, s, s.(c := s.c.(msgtype := m)));
    assert all[1..] == [all[1]] && [all[1]][1..] == none;
    hide M.Wire;
    assert |M.WireAll(none)| == 0;
    assert |M.WireAll([all[1]])| == |M.Wire(all[1])| + |M.WireAll(none)|;
  }

  /** In every session, whatever is behind them, these 14 bytes have the name of a message
      logged that is not in the table. */
  lemma UnmarkedTypeIsUnnamed(s: Session, m: u16, mandatory: bool, rest: seq<byte>, h: Hash, key: seq<byte>)
    requires !Named(m)
    ensures M.AllSendable(Nameless(m, mandatory))
    ensures var buf := M.WireAll(Nameless(m, mandatory));
            |buf| == 14 && Walk(buf + rest, 0, |buf|, true, s, h, key).access == Unnamed
  {
    NamelessHandled(s, m, mandatory);
    assert Nameless(m, mandatory) != [] && Nameless(m, mandatory)[0].attr == 0;
    hide Walk, M.HandleAll, M.WireAll, Nameless;
    BuiltParsed(Nameless(m, mandatory), rest, s, h, key);
  }

  lemma AnsweredDies(x: Tun, o: Owner, cfg: Config, h: Hash, env: Env)
    requires x.s.c.msgtype == ICRP && x.s.c.cid >= 0 && !o.lac
    ensures Finish(x, o, cfg, h, env).dead
  {
    hide Request, Reply, Connected, Stop, Disconnect, Initiate, CallConnected;
  }

  lemma UnfoldOnCall(x: Tun, e: Event, cfg: Config, h: Hash)
    requires e.OnCall? && Possible(e) && !x.dead
    ensures var w, o := Parsed(x, e, h), Owner(e.lac, e.lns, x.s.c.result);
            w.ok && w.access.Fine? ==>
              Next(x, e, cfg, h).dead == Finish(x.(s := w.s, closing := false), o, cfg, h, e.env).dead
  {
    hide Finish, Parsed;
  }

  /** Nor is the M bit all: a call placed without an entry, as the control pipe does, and
      answered by the message the daemon itself sends. */
  lemma UnenteredAnswerDies(x: Tun, cfg: Config, h: Hash, e: Event, reply: M.Message)
    requires x.s.t.state == SCCCN && !x.dead && M.Sized(reply) && reply.Icrp?
    requires M.AllSendable(M.Attrs(reply)) && e.OnCall? && Possible(e) && e.call.state == ICRQ && !e.lac
    requires var body := M.WireAll(M.Attrs(reply)); e.at == 0 && e.len == |body| && body <= e.buf
    ensures Next(x, e, cfg, h).dead
  {
    var s0, body := Start(x, e), M.WireAll(M.Attrs(reply));
    var rest := e.buf[|body|..];
    assert [] + body + rest == e.buf;
    M.MessageRoundTrip(reply, s0, [], rest, h, e.key);
    var w := Parsed(x, e, h);
    assert w.s.c.msgtype == ICRP && w.s.c.cid >= 0;
    hide *;
    AnsweredDies(x.(s := w.s, closing := false), Owner(e.lac, e.lns, x.s.c.result), cfg, h, e.env);
    UnfoldOnCall(x, e, cfg, h);
  }

  // ----- other records change -----

  /** On a call, the same packet is accepted as a request for one: none is created, and the
      first call of the list gets another identifier. */
  lemma UnmarkedRequestReuses(s: Session, cid: u16, rest: seq<byte>, h: Hash, key: seq<byte>)
    requires !s.c.isSelf && s.calls != []
    ensures M.AllSendable(Headless(cid))
    ensures var buf := M.WireAll(Headless(cid));
            var w := Walk(buf + rest, 0, |buf|, true, s, h, key);
            && w.ok && w.access.Fine? && w.s.c.msgtype == ICRQ
            && w.s.calls == [s.calls[0].(cid := cid)] + s.calls[1..]
  {
    HeadlessHandled(s, cid);
    hide Walk, M.HandleAll, M.WireAll, Headless;
    BuiltParsed(Headless(cid), rest, s, h, key) by { HeadlessStarts(cid); }
  }

  /** An SCCRQ with its M bit clear, a host name, and a Hello, in one packet. */
  function Renaming(name: seq<byte>): seq<M.Attr> {
    [M.Attr(false, 0, Be16(SCCRQ)), M.Attr(true, 7, name), M.Attr(true, 0, Be16(HELLO))]
  }

  lemma RenamingHandled(s: Session, name: seq<byte>)
    requires s.t.state == SCCCN && |name| <= NAME_MAX && 0 !in name
    ensures M.AllSendable(Renaming(name))
    ensures M.HandleAll(Renaming(name), s)
         == M.Done(s.(t := s.t.(hostname := name), c := s.c.(msgtype := HELLO)), true, Fine)
  {
    var all, none: seq<M.Attr> := Renaming(name), [];
    var s1 := s.(c := s.c.(msgtype := SCCRQ));
    var s2 := s1.(t := s1.t.(hostname := name));
    var s3 := s2.(c := s2.c.(msgtype := HELLO));
    TypeHandled(false, SCCRQ, s);
    TypeHandled(true, HELLO, s2);
    M.NoZeroKept(name);
    assert name[..|name|] == name;
    assert M.Handle(all[1], s1) == M.Done(s2, true, Fine);
    hide M.Handle;
    assert all[1..] == [all[1], all[2]] && all[1..][1..] == [all[2]] && [all[2]][1..] == none;
    HandleNext(all, s, s1);
    HandleNext(all[1..], s1, s2);
    HandleNext([all[2]], s2, s3);
    assert M.HandleAll(none, s3) == M.Done(s3, true, Fine);
  }

  /** The last Message Type is not enough: in every established tunnel one packet puts any
      other name in the place of the one that was proven. */
  lemma UnmarkedTypeRenames(x: Tun, cfg: Config, h: Hash, key: seq<byte>, list: seq<ListedCall>, env: Env,
                            name: seq<byte>)
    requires x.s.t.state == SCCCN && Running(x) && |name| <= NAME_MAX && 0 !in name
    ensures M.AllSendable(Renaming(name))
    ensures var buf := M.WireAll(Renaming(name));
            var y := Next(x, Message(buf, 0, |buf|, key, list, env), cfg, h);
            && Running(y) && y.s.t.state == SCCCN && y.them == x.them && y.s.t.reply == x.s.t.reply
            && y.s.t.hostname == name && (cfg.secret(x.lns, name).NoSecret? ==> !Proven(y, cfg, h))
  {
    var s0 := Fresh(x.s, list);
    RenamingHandled(s0, name);
    var buf := M.WireAll(Renaming(name));
    BuiltParsed(Renaming(name), [], s0, h, key);
    assert buf + [] == buf;
    hide Walk, M.HandleAll, M.WireAll, Renaming, Digest;
  }
}
