/** What the messages of a conforming peer achieve: the three-way exchange that sets a tunnel
    up, with its challenges, and the messages that connect and close calls and tunnels. */
module Handshake {
  import opened Words
  import opened HiddenAvp
  import opened AvpHandlers
  import opened AvpParser
  import opened WalkEffects
  import opened TunnelAuth
  import M = AvpMessages
  import Md5

  // ----- built messages arrive -----

  /** Where in a buffer a message is, the peer's secret for hidden attributes, the tunnel's
      calls, and what else it meets. */
  datatype Arrival = Arrival(pre: seq<byte>, post: seq<byte>, key: seq<byte>, list: seq<ListedCall>, env: Env)

  /** A message built by the daemon arrives on the tunnel. */
  function Arrives(m: M.Message, a: Arrival): Event
    requires M.AllSendable(M.Attrs(m))
  {
    var body := M.WireAll(M.Attrs(m));
    Message(a.pre + body + a.post, |a.pre|, |body|, a.key, a.list, a.env)
  }

  /** Or on one of its calls. */
  function ArrivesOn(m: M.Message, a: Arrival, call: CallInfo, lac: bool, lns: bool): Event
    requires M.AllSendable(M.Attrs(m))
  {
    var body := M.WireAll(M.Attrs(m));
    OnCall(a.pre + body + a.post, |a.pre|, |body|, a.key, a.list, a.env, call, lac, lns)
  }

  predicate Allows(s: Session, m: M.Message) {
    M.Sized(m) && StateAllows(s.(c := s.c.(msgtype := M.TypeOf(m))), M.TypeOf(m))
  }

  lemma TunnelGets(x: Tun, m: M.Message, a: Arrival, cfg: Config, h: Hash)
    requires !x.dead && Allows(Fresh(x.s, a.list), m)
    ensures M.AllSendable(M.Attrs(m)) && Possible(Arrives(m, a))
    ensures var s := M.Learned(Fresh(x.s, a.list), m);
            Next(x, Arrives(m, a), cfg, h) == Finish(x.(s := s), Owner(cfg.lac, false, s.c.result), cfg, h, a.env)
  {
    M.MessageRoundTrip(m, Fresh(x.s, a.list), a.pre, a.post, h, a.key);
    hide Walk, M.Learned, M.Attrs, M.WireAll, Finish, StateAllows, M.Sized;
  }

  /** A call of the tunnel. */
  predicate IsCall(call: CallInfo, list: seq<ListedCall>) {
    !call.isSelf && list != [] && (call.isHead ==> list[0].cid == call.cid)
  }

  lemma CallGets(x: Tun, m: M.Message, a: Arrival, call: CallInfo, lac: bool, lns: bool, cfg: Config, h: Hash)
    requires IsCall(call, a.list) && Allows(Fresh(x.s.(c := call), a.list), m)
    ensures M.AllSendable(M.Attrs(m)) && Possible(ArrivesOn(m, a, call, lac, lns))
    ensures var s := M.Learned(Fresh(x.s.(c := call), a.list), m);
            var y := CallAfter(x, ArrivesOn(m, a, call, lac, lns), cfg, h);
            y == Finish(x.(s := s, closing := false), Owner(lac, lns, x.s.c.result), cfg, h, a.env)
  {
    M.MessageRoundTrip(m, Fresh(x.s.(c := call), a.list), a.pre, a.post, h, a.key);
    hide Walk, M.Learned, M.Attrs, M.WireAll, Finish, StateAllows, M.Sized;
  }

  lemma FinishSetup(x: Tun, o: Owner, cfg: Config, h: Hash, env: Env)
    requires x.s.c.msgtype in {SCCRQ, SCCRP, SCCCN}
    ensures Finish(x, o, cfg, h, env) ==
              if x.s.c.msgtype == SCCRQ then Request(x, cfg, h, env)
              else if x.s.c.msgtype == SCCRP then Reply(x, cfg, h) else Connected(x)
  {
    hide Request, Reply, Connected, Stop, Disconnect, Answered, CallConnected, Initiate;
  }

  /** Asked to close, with the error that says why. */
  predicate Refuses(x: Tun) {
    x.s.c.needClose && x.s.c.error == 6 && x.s.c.result == 2
  }

  // ----- setting a tunnel up -----

  /** What an introduction leaves in the tunnel's record. */
  lemma Introduces(x: Tun, m: M.Message, list: seq<ListedCall>)
    requires m.Sccrq? || m.Sccrp?
    ensures var s, c := M.Learned(Fresh(x.s, list), m), x.s.c.(msgtype := M.TypeOf(m));
            && s.c == c && s.t.state == x.s.t.state && s.t.tid == m.tid && s.t.fc >= 0
            && s.t.hostname == M.StoredName(m.host)
            && s.t.challenge == (if m.challenge.Some? then Challenge(m.challenge.value) else x.s.t.challenge)
            && s.t.reply == (if m.Sccrp? then KeptReply(x, m.response) else x.s.t.reply)
  {
    hide M.StoredName;
  }

  /** The reply that is kept: the one in the message, or one that came before. */
  function KeptReply(x: Tun, response: M.Opt<seq<byte>>): seq<byte> {
    if response.Some? then response.value else x.s.t.reply
  }

  /** A request is answered if it names its sender's end, and its sender if that matters, an
      entry is found, no other tunnel is like it, and there is a secret if one is needed. */
  predicate Acceptable(tid: int, name: seq<byte>, challenged: bool, cfg: Config, env: Env) {
    && tid != 0 && cfg.authorized && !env.duplicate
    && (name == [] ==> !challenged && !cfg.lnsWants)
    && (cfg.lnsWants ==> cfg.secret(true, name).Secret?)
  }

  /** Our challenge, and the reply to it that will be asked for: the digest of message type,
      secret and challenge. */
  function Asked(cfg: Config, h: Hash, name: seq<byte>, random: seq<byte>): Them
    requires cfg.secret(true, name).Secret?
  {
    Them(true, random, h([3] + cfg.secret(true, name).bytes + random))
  }

  /** Any request, once its attributes have been handled: it is also refused without a framing
      capability. */
  lemma RequestDoes(x: Tun, cfg: Config, h: Hash, env: Env)
    requires Running(x) && x.s.t.state == 0
    ensures var y, t := Request(x, cfg, h, env), x.s.t;
            if t.tid > 0 && t.fc >= 0 && Acceptable(t.tid, t.hostname, t.challenge.Challenge?, cfg, env) then
              && Running(y) && y.s == x.s.(t := t.(state := SCCRP)) && y.lns
              && y.them == if cfg.lnsWants then Asked(cfg, h, t.hostname, env.random) else x.them
            else !Running(y) && y.s.t.state in {0, SCCRP} && (Refuses(y) || (env.duplicate && y.closing))
  {
  }

  /** A request is answered exactly if it is acceptable. */
  lemma RequestAnswered(x: Tun, m: M.Message, a: Arrival, cfg: Config, h: Hash)
    requires Starts(x, cfg) && cfg.role.Responder? && m.Sccrq? && M.Sized(m)
    ensures M.AllSendable(M.Attrs(m))
    ensures var y, name := Next(x, Arrives(m, a), cfg, h), M.StoredName(m.host);
            if Acceptable(m.tid, name, m.challenge.Some?, cfg, a.env) then
              && Running(y) && y.s.t.state == SCCRP && y.lns && y.s.t.tid == m.tid && y.s.t.hostname == name
              && y.s.c.isSelf && y.s.t.reply == x.s.t.reply
              && y.s.t.challenge == (if m.challenge.Some? then Challenge(m.challenge.value) else NoChallenge)
              && y.them == if cfg.lnsWants then Asked(cfg, h, name, a.env.random) else x.them
            else !Running(y) && y.s.t.state in {0, SCCRP} && (Refuses(y) || (a.env.duplicate && y.closing))
  {
    assert Allows(Fresh(x.s, a.list), m) && Running(x) && x.s.c.isSelf;
    assert x.s.t.challenge.NoChallenge? && x.s.t.state == 0;
    hide *;
    var s := M.Learned(Fresh(x.s, a.list), m);
    TunnelGets(x, m, a, cfg, h);
    Introduces(x, m, a.list);
    assert M.TypeOf(m) == SCCRQ && Running(x.(s := s));
    FinishSetup(x.(s := s), Owner(cfg.lac, false, s.c.result), cfg, h, a.env);
    RequestDoes(x.(s := s), cfg, h, a.env);
  }

  /** The secret shared with a peer of that name, under the entry the tunnel has. */
  function SharedWith(x: Tun, cfg: Config, name: seq<byte>): Secret {
    if x.lns || cfg.lac then cfg.secret(x.lns, name) else NoSecret
  }

  /** An answer to our request convinces if it names its sender's end, and its sender if that
      matters, if the reply is the digest of message type, shared secret and our challenge, if
      there is one, and if there is a secret to answer the peer's with. */
  predicate Convincing(x: Tun, tid: int, name: seq<byte>, challenged: bool, reply: seq<byte>, cfg: Config, h: Hash) {
    var secret := SharedWith(x, cfg, name);
    && tid != 0 && (name == [] ==> !x.them.challenged && !challenged)
    && (x.them.challenged || challenged ==> secret.Secret?)
    && (x.them.challenged ==> reply == h([2] + secret.bytes + x.them.challenge))
  }

  lemma ReplyDoes(x: Tun, cfg: Config, h: Hash)
    ensures var y, t := Reply(x, cfg, h), x.s.t;
            && y.closing == x.closing && y.dead == x.dead && y.lns == x.lns
            && y.them.challenge == x.them.challenge && y.them.challenged == x.them.challenged
            && if t.tid > 0 && t.fc >= 0 && Convincing(x, t.tid, t.hostname, t.challenge.Challenge?, t.reply, cfg, h)
               then y.s == x.s.(t := t.(state := SCCCN)) else y.s.t == t && Refuses(y)
  {
  }

  /** The answer to our request establishes the tunnel exactly if it convinces; otherwise the
      tunnel is to be closed. */
  lemma ReplyAnswered(x: Tun, m: M.Message, a: Arrival, cfg: Config, h: Hash)
    requires x.s.c.isSelf && x.s.t.state == SCCRQ && !x.dead && m.Sccrp? && M.Sized(m)
    ensures M.AllSendable(M.Attrs(m))
    ensures var y, name := Next(x, Arrives(m, a), cfg, h), M.StoredName(m.host);
            var challenged := m.challenge.Some? || x.s.t.challenge.Challenge?;
            && y.closing == x.closing && !y.dead && y.lns == x.lns && y.them.challenge == x.them.challenge
            && y.s.t.tid == m.tid && y.s.t.hostname == name
            && y.s.t.challenge == (if m.challenge.Some? then Challenge(m.challenge.value) else x.s.t.challenge)
            && if Convincing(x, m.tid, name, challenged, KeptReply(x, m.response), cfg, h)
               then y.s.t.state == SCCCN && y.s.c.needClose == x.s.c.needClose
               else y.s.t.state == SCCRQ && Refuses(y)
  {
    assert Allows(Fresh(x.s, a.list), m);
    hide *;
    var s := M.Learned(Fresh(x.s, a.list), m);
    TunnelGets(x, m, a, cfg, h);
    Introduces(x, m, a.list);
    assert M.TypeOf(m) == SCCRP;
    FinishSetup(x.(s := s), Owner(cfg.lac, false, s.c.result), cfg, h, a.env);
    ReplyDoes(x.(s := s), cfg, h);
    SameShare(x, x.(s := s), cfg, h, m.tid, M.StoredName(m.host), s.t.challenge.Challenge?, s.t.reply);
  }

  lemma SameShare(x: Tun, y: Tun, cfg: Config, h: Hash, tid: int, name: seq<byte>, challenged: bool, reply: seq<byte>)
    requires x.lns == y.lns && x.them == y.them
    ensures Convincing(x, tid, name, challenged, reply, cfg, h) == Convincing(y, tid, name, challenged, reply, cfg, h)
  {
  }

  lemma ConnectedDoes(x: Tun)
    requires x.lns && !x.dead
    ensures var y := Connected(x);
            && y.closing == x.closing && !y.dead && y.them == x.them && y.lns
            && if x.them.challenged ==> x.s.t.reply == x.them.response
               then y.s == x.s.(t := x.s.t.(state := SCCCN)) else y.s.t == x.s.t && Refuses(y)
  {
  }

  /** The connection is established exactly if the reply, when our challenge asked for one, is
      the expected one; otherwise the tunnel is to be closed. */
  lemma ConnectedAnswered(x: Tun, m: M.Message, a: Arrival, cfg: Config, h: Hash)
    requires x.s.c.isSelf && x.s.t.state == SCCRP && x.lns && !x.dead && m.Scccn? && M.Sized(m)
    ensures M.AllSendable(M.Attrs(m))
    ensures var y := Next(x, Arrives(m, a), cfg, h);
            && y.closing == x.closing && !y.dead && y.them == x.them && y.lns && y.s.t.tid == x.s.t.tid
            && if x.them.challenged ==> KeptReply(x, m.response) == x.them.response
               then y.s.t.state == SCCCN && y.s.c.needClose == x.s.c.needClose
               else y.s.t.state == SCCRP && Refuses(y)
  {
    assert Allows(Fresh(x.s, a.list), m);
    var s := M.Learned(Fresh(x.s, a.list), m);
    assert s.c == x.s.c.(msgtype := SCCCN) && s.t.state == x.s.t.state && s.t.tid == x.s.t.tid;
    assert s.t.reply == KeptReply(x, m.response);
    hide *;
    TunnelGets(x, m, a, cfg, h);
    FinishSetup(x.(s := s), Owner(cfg.lac, false, s.c.result), cfg, h, a.env);
    ConnectedDoes(x.(s := s));
  }

  /** A tunnel we ask for: it waits for an answer, and its challenge, if its entry wants one, is
      fresh. */
  lemma InitiateStarts(x: Tun, o: Owner, cfg: Config, h: Hash, env: Env)
    requires x.s.c.msgtype == 0 && x.s.c.isSelf && x.s.c.state == 0 && Running(x) && !x.lns
    requires cfg.role.Initiator? && x.s.t.challenge.NoChallenge? && !x.them.challenged
    ensures var y := Finish(x, o, cfg, h, env);
            && Starts(y, cfg) && y.s.t.state == 1
            && (y.them.challenged <==> cfg.lac && cfg.lacWants)
            && (cfg.lac && cfg.lacWants ==> y.them.challenge == env.random)
  {
    hide Request, Reply, Connected, Stop, Disconnect, Answered, CallConnected;
  }

  // ----- two daemons -----

  /** The answer to the peer's challenge. What is left from before is sent if there is no
      secret for it. */
  function Answer(x: Tun, cfg: Config, h: Hash, ss: byte, left: Sig): M.Opt<seq<byte>> {
    if x.s.t.challenge.NoChallenge? then M.None
    else
      match SecretFor(x, cfg)
      case NoSecret => M.Some(left)
      case Secret(b) => M.Some(h([ss] + b + x.s.t.challenge.bytes))
  }

  /** One side: its record, its configuration, and the names and numbers it puts in messages. */
  datatype Party = Party(x: Tun, cfg: Config, vector: M.Opt<seq<byte>>, fc: u16, bc: u16, host: seq<byte>, tid: u16,
                         rws: M.Opt<u16>, left: Sig)

  function OurChallenge(them: Them): M.Opt<seq<byte>> {
    if them.challenged then M.Some(them.challenge) else M.None
  }

  function Sccrq(p: Party): M.Message {
    M.Sccrq(p.vector, p.fc, p.bc, p.host, p.tid, p.rws, OurChallenge(p.x.them))
  }

  function Sccrp(p: Party, h: Hash): M.Message {
    M.Sccrp(p.vector, p.fc, p.bc, p.host, p.tid, p.rws, Answer(p.x, p.cfg, h, 2, p.left), OurChallenge(p.x.them))
  }

  function Scccn(p: Party, h: Hash): M.Message {
    M.Scccn(p.vector, Answer(p.x, p.cfg, h, 3, p.left))
  }

  /** The messages have the sizes the daemon gives them. */
  predicate Fits(p: Party) {
    (p.vector.Some? ==> |p.vector.value| == SIG_SIZE) && |p.x.them.challenge| <= M.VALUE_MAX
  }

  /** A party after a message of the other. */
  ghost function Gets(p: Party, m: M.Message, a: Arrival, h: Hash): Party
    requires M.AllSendable(M.Attrs(m)) && !p.x.dead
  {
    p.(x := Next(p.x, Arrives(m, a), p.cfg, h))
  }

  /** Two different strings with one digest. */
  predicate Collide(h: Hash, a: seq<byte>, b: seq<byte>) {
    a != b && h(a) == h(b)
  }

  /** Equal answers to one challenge are from equal secrets, unless the hash collides. */
  lemma ResponseTellsSecret(h: Hash, ss: byte, a: seq<byte>, b: seq<byte>, challenge: seq<byte>)
    ensures h([ss] + a + challenge) == h([ss] + b + challenge) <==>
              a == b || Collide(h, [ss] + a + challenge, [ss] + b + challenge)
  {
    var s, t := [ss] + a + challenge, [ss] + b + challenge;
    if s == t {
      assert |a| == |b| && a == s[1..1 + |a|] && b == t[1..1 + |b|];
    }
  }

  predicate Established(p: Party) {
    Running(p.x) && p.x.s.t.state == SCCCN
  }

  /** The exchange up to the answer of the side that was asked. */
  ghost predicate Answers(i: Party, r: Party, a: Arrival, h: Hash) {
    && M.AllSendable(M.Attrs(Sccrq(i))) && !r.x.dead
    && var r1 := Gets(r, Sccrq(i), a, h);
       Running(r1.x) && r1.x.s.t.state == SCCRP && M.AllSendable(M.Attrs(Sccrp(r1, h)))
  }

  /** The whole exchange leaves both sides with an established tunnel. */
  ghost predicate Completes(i: Party, r: Party, a1: Arrival, a2: Arrival, a3: Arrival, h: Hash) {
    && Answers(i, r, a1, h) && !i.x.dead
    && var r1 := Gets(r, Sccrq(i), a1, h);
       var i1 := Gets(i, Sccrp(r1, h), a2, h);
       && Established(i1) && M.AllSendable(M.Attrs(Scccn(i1, h)))
       && Established(Gets(r1, Scccn(i1, h), a3, h))
  }

  /** What both sides need: their own secret for the other's name. */
  function SecretOf(p: Party, peer: Party): Secret {
    p.cfg.secret(p.cfg.role.Responder?, M.StoredName(peer.host))
  }

  /** A side that asks for a tunnel and one that is about to be asked for it, with nothing but
      their secrets to stand between them. */
  predicate Willing(i: Party, r: Party, a: Arrival) {
    && Starts(i.x, i.cfg) && i.cfg.role.Initiator? && i.cfg.lac && Fits(i)
    && Starts(r.x, r.cfg) && r.cfg.role.Responder? && Fits(r)
    && i.tid != 0 && r.tid != 0 && M.StoredName(i.host) != [] && M.StoredName(r.host) != []
    && r.cfg.authorized && !a.env.duplicate && |a.env.random| <= M.VALUE_MAX
  }

  /** What the asked side is after the request. */
  ghost predicate Waiting(r1: Party, i: Party, r: Party, random: seq<byte>, h: Hash) {
    && r1 == r.(x := r1.x) && Running(r1.x) && r1.x.s.t.state == SCCRP && r1.x.lns && r1.x.s.t.tid == i.tid
    && r1.x.s.c.isSelf && r1.x.s.t.hostname == M.StoredName(i.host)
    && r1.x.s.t.challenge == (if i.x.them.challenged then Challenge(i.x.them.challenge) else NoChallenge)
    && (r.cfg.lnsWants ==> SecretOf(r, i).Secret?
                           && r1.x.them == Them(true, random, h([3] + SecretOf(r, i).bytes + random)))
    && (!r.cfg.lnsWants ==> !r1.x.them.challenged) && |r1.x.them.challenge| <= M.VALUE_MAX
  }

  lemma SizedSendable(m: M.Message, s: Session)
    requires M.Sized(m)
    ensures M.AllSendable(M.Attrs(m))
  {
    hide M.Attrs, M.Sized;
    M.AttrsSendable(m, s);
  }

  lemma FitsSized(p: Party, h: Hash)
    requires Fits(p)
    ensures M.Sized(Sccrq(p)) && M.Sized(Sccrp(p, h)) && M.Sized(Scccn(p, h))
    ensures M.AllSendable(M.Attrs(Sccrq(p))) && M.AllSendable(M.Attrs(Sccrp(p, h)))
    ensures M.AllSendable(M.Attrs(Scccn(p, h)))
  {
    hide SecretFor;
    assert M.Sized(Sccrq(p)) && M.Sized(Sccrp(p, h)) && M.Sized(Scccn(p, h));
    hide *;
    SizedSendable(Sccrq(p), p.x.s);
    SizedSendable(Sccrp(p, h), p.x.s);
    SizedSendable(Scccn(p, h), p.x.s);
  }

  /** What the record of the asked side says. */
  lemma RequestWaits(i: Party, r: Party, a: Arrival, h: Hash)
    requires Willing(i, r, a) && (r.cfg.lnsWants ==> SecretOf(r, i).Secret?)
    ensures M.AllSendable(M.Attrs(Sccrq(i))) && !r.x.dead && Waiting(Gets(r, Sccrq(i), a, h), i, r, a.env.random, h)
  {
    var m, name := Sccrq(i), M.StoredName(i.host);
    FitsSized(i, h);
    assert !r.x.dead && !r.x.them.challenged && Starts(r.x, r.cfg);
    assert Acceptable(m.tid, name, m.challenge.Some?, r.cfg, a.env);
    hide M.Attrs, M.AllSendable, Next, Arrives, M.StoredName, M.Sized, Starts, Acceptable;
    RequestAnswered(r.x, m, a, r.cfg, h);
  }

  lemma RequestFails(i: Party, r: Party, a: Arrival, h: Hash)
    requires Willing(i, r, a) && r.cfg.lnsWants && SecretOf(r, i).NoSecret?
    ensures !Answers(i, r, a, h)
  {
    var m, name := Sccrq(i), M.StoredName(i.host);
    FitsSized(i, h);
    assert Starts(r.x, r.cfg) && !Acceptable(m.tid, name, m.challenge.Some?, r.cfg, a.env);
    hide M.Attrs, M.AllSendable, Next, Arrives, M.StoredName, M.Sized, Starts, Acceptable;
    RequestAnswered(r.x, m, a, r.cfg, h);
  }

  lemma RequestStep(i: Party, r: Party, a: Arrival, h: Hash)
    requires Willing(i, r, a)
    ensures Answers(i, r, a, h) <==> (r.cfg.lnsWants ==> SecretOf(r, i).Secret?)
    ensures Answers(i, r, a, h) ==> Waiting(Gets(r, Sccrq(i), a, h), i, r, a.env.random, h)
  {
    if r.cfg.lnsWants ==> SecretOf(r, i).Secret? {
      RequestWaits(i, r, a, h);
      var r1 := Gets(r, Sccrq(i), a, h);
      assert Fits(r1) by { hide M.Attrs, M.AllSendable, Next, Arrives, M.StoredName, Starts; }
      hide M.Attrs, M.AllSendable, Next, Arrives, M.StoredName, Willing, Fits, SecretOf;
      FitsSized(r1, h);
    } else {
      RequestFails(i, r, a, h);
    }
  }

  /** The asked side's answer is what the asking side takes for the secret's. */
  predicate AnswerFits(i: Party, r: Party, h: Hash) {
    var si, sr, c := SecretOf(i, r), SecretOf(r, i), i.x.them.challenge;
    si.Secret? && h([2] + si.bytes + c) == if sr.Secret? then h([2] + sr.bytes + c) else r.left
  }

  /** The answer convinces exactly those it should. */
  lemma ReplyConvinces(i: Party, r: Party, r1: Party, a: Arrival, h: Hash)
    requires Willing(i, r, a) && Waiting(r1, i, r, a.env.random, h)
    ensures var m, name, si := Sccrp(r1, h), M.StoredName(r.host), SecretOf(i, r);
            Convincing(i.x, m.tid, name, m.challenge.Some?, KeptReply(i.x, m.response), i.cfg, h) <==>
              (i.x.them.challenged ==> AnswerFits(i, r, h)) && (r.cfg.lnsWants ==> si.Secret?)
  {
    var si, sr := SecretOf(i, r), SecretOf(r, i);
    hide M.StoredName, Fits;
    assert SharedWith(i.x, i.cfg, M.StoredName(r.host)) == si && SecretFor(r1.x, r1.cfg) == sr;
    hide SecretFor, SecretOf;
  }

  /** What the asking side is after that. */
  ghost predicate Answered(i1: Party, i: Party, r: Party, random: seq<byte>) {
    && i1 == i.(x := i1.x) && !i1.x.dead && !i1.x.lns && i1.x.s.t.tid == r.tid
    && i1.x.s.t.hostname == M.StoredName(r.host) && |i1.x.them.challenge| <= M.VALUE_MAX
    && i1.x.s.t.challenge == if r.cfg.lnsWants then Challenge(random) else NoChallenge
  }

  lemma ReplyStep(i: Party, r: Party, r1: Party, a: Arrival, a2: Arrival, h: Hash)
    requires Willing(i, r, a) && Waiting(r1, i, r, a.env.random, h)
    ensures M.AllSendable(M.Attrs(Sccrp(r1, h))) && !i.x.dead
    ensures var i1 := Gets(i, Sccrp(r1, h), a2, h);
            && Answered(i1, i, r, a.env.random)
            && (Established(i1) <==>
                  (i.x.them.challenged ==> AnswerFits(i, r, h)) && (r.cfg.lnsWants ==> SecretOf(i, r).Secret?))
  {
    var m := Sccrp(r1, h);
    ReplyConvinces(i, r, r1, a, h);
    assert Fits(r1);
    FitsSized(r1, h);
    assert Running(i.x) && i.x.s.c.isSelf && i.x.s.t.state == SCCRQ && i.x.s.t.challenge.NoChallenge? && !i.x.lns;
    assert m.challenge.Some? <==> r.cfg.lnsWants;
    hide M.Attrs, M.AllSendable, Next, Arrives, M.StoredName, M.Sized, Starts, Convincing, Answer, SecretOf, AnswerFits;
    ReplyAnswered(i.x, m, a2, i.cfg, h);
  }

  /** The asking side's answer is the one the asked side expects. */
  predicate ConfirmationFits(i: Party, r: Party, random: seq<byte>, h: Hash) {
    var si, sr := SecretOf(i, r), SecretOf(r, i);
    si.Secret? && sr.Secret? && h([3] + si.bytes + random) == h([3] + sr.bytes + random)
  }

  lemma ConnectedStep(i: Party, r: Party, i1: Party, r1: Party, random: seq<byte>, a3: Arrival, h: Hash)
    requires i.cfg.role.Initiator? && i.cfg.lac && r.cfg.role.Responder? && Fits(i)
    requires Waiting(r1, i, r, random, h) && Answered(i1, i, r, random) && (r.cfg.lnsWants ==> SecretOf(i, r).Secret?)
    ensures M.AllSendable(M.Attrs(Scccn(i1, h)))
    ensures var r2 := Gets(r1, Scccn(i1, h), a3, h);
            r2.x.s.t.tid == i.tid && (Established(r2) <==> (r.cfg.lnsWants ==> ConfirmationFits(i, r, random, h)))
  {
    var m := Scccn(i1, h);
    var si := SecretOf(i, r);
    assert Fits(i1);
    FitsSized(i1, h);
    hide M.Attrs, M.AllSendable, Next, Arrives, M.StoredName, M.Sized, Fits;
    if r.cfg.lnsWants {
      assert SecretFor(i1.x, i1.cfg) == si;
      assert m.response.Some? && m.response.value == h([3] + si.bytes + random);
    }
    hide SecretFor, SecretOf;
    ConnectedAnswered(r1.x, m, a3, r1.cfg, h);
  }

  /** Two willing daemons end with a tunnel established on both sides exactly if each challenge
      there is gets the answer expected; and then each knows the other's end. */
  lemma HandshakeCompletes(i: Party, r: Party, a1: Arrival, a2: Arrival, a3: Arrival, h: Hash)
    requires Willing(i, r, a1)
    ensures Completes(i, r, a1, a2, a3, h) <==>
              && (i.x.them.challenged ==> AnswerFits(i, r, h))
              && (r.cfg.lnsWants ==> ConfirmationFits(i, r, a1.env.random, h))
    ensures Completes(i, r, a1, a2, a3, h) ==>
              var r1 := Gets(r, Sccrq(i), a1, h);
              var i1 := Gets(i, Sccrp(r1, h), a2, h);
              i1.x.s.t.tid == r.tid && Gets(r1, Scccn(i1, h), a3, h).x.s.t.tid == i.tid
  {
    assert i.cfg.role.Initiator? && i.cfg.lac && r.cfg.role.Responder? && Fits(i);
    hide Willing, Waiting, Answered, Gets, SecretOf, Established, M.Attrs, M.AllSendable, Answers, AnswerFits;
    hide Sccrq, Sccrp, Scccn, Fits;
    RequestStep(i, r, a1, h);
    if Answers(i, r, a1, h) {
      AnswersGet(i, r, a1, h);
      var r1 := Gets(r, Sccrq(i), a1, h);
      ReplyStep(i, r, r1, a1, a2, h);
      var i1 := Gets(i, Sccrp(r1, h), a2, h);
      if Established(i1) {
        ConnectedStep(i, r, i1, r1, a1.env.random, a3, h);
        AnsweredTid(i1, i, r, a1.env.random);
      }
    }
  }

  lemma AnswersGet(i: Party, r: Party, a: Arrival, h: Hash)
    requires Answers(i, r, a, h)
    ensures M.AllSendable(M.Attrs(Sccrq(i))) && !r.x.dead
  {
    hide M.Attrs, M.AllSendable;
  }

  lemma AnsweredTid(i1: Party, i: Party, r: Party, random: seq<byte>)
    requires Answered(i1, i, r, random)
    ensures i1.x.s.t.tid == r.tid
  {
  }

  /** So a shared secret is enough, whoever challenges; and without one, when anybody does,
      the tunnel is established only if the hash gives one digest to two strings, or to one
      the bytes left in the place of an answer that could not be worked out. */
  lemma SharedSecretDecides(i: Party, r: Party, a1: Arrival, a2: Arrival, a3: Arrival, h: Hash)
    requires Willing(i, r, a1) && (i.x.them.challenged || r.cfg.lnsWants)
    ensures var si, sr, done := SecretOf(i, r), SecretOf(r, i), Completes(i, r, a1, a2, a3, h);
            && (si.Secret? && si == sr ==> done)
            && (done && si != sr ==>
                  && si.Secret?
                  && if sr.NoSecret? then h([2] + si.bytes + i.x.them.challenge) == r.left
                     else (i.x.them.challenged ==> Collide(h, [2] + si.bytes + i.x.them.challenge,
                                                           [2] + sr.bytes + i.x.them.challenge))
                          && (r.cfg.lnsWants ==> Collide(h, [3] + si.bytes + a1.env.random,
                                                         [3] + sr.bytes + a1.env.random)))
  {
    HandshakeCompletes(i, r, a1, a2, a3, h);
    var si, sr := SecretOf(i, r), SecretOf(r, i);
    hide Completes, Willing;
    if si.Secret? && sr.Secret? {
      ResponseTellsSecret(h, 2, si.bytes, sr.bytes, i.x.them.challenge);
      ResponseTellsSecret(h, 3, si.bytes, sr.bytes, a1.env.random);
    }
  }

  // ----- closing and connecting -----

  /** The identifier by which the peer names the tunnel: its own, for most peers. */
  function NamedTunnel(x: Tun, cfg: Config): int {
    if NamesOurs(x.s.t) then cfg.ourtid as int else x.s.t.tid
  }

  /** The peers that name tunnels and calls by our identifiers, in letters. */
  lemma NamesOursExactly(t: TunnelInfo)
    ensures NamesOurs(t) <==> t.firmware == 0xff00 && Spells(t.vendor, "Deterministic Networks Inc.")
  {
    var name := "Deterministic Networks Inc.";
    assert |OLD_VENDOR| == |name| && forall i :: 0 <= i < |name| ==> OLD_VENDOR[i] == name[i] as int;
    if Spells(t.vendor, name) {
      assert t.vendor[..|name|] == OLD_VENDOR;
    }
  }

  /** The bytes begin with these letters. */
  predicate Spells(s: seq<byte>, name: string) {
    |s| >= |name| && forall i :: 0 <= i < |name| ==> s[i] == name[i] as int
  }

  lemma StopDoes(x: Tun, o: Owner, cfg: Config, h: Hash, env: Env)
    requires x.s.c.msgtype == STOPCCN && x.s.t.qtid >= 0 && o.result >= 0
    ensures var y, tid := Finish(x, o, cfg, h, env), NamedTunnel(x, cfg);
            if x.s.t.qtid == tid || tid <= 0 then
              y.closing && !y.s.c.needClose && y.s.t.tid == if x.s.t.tid == 0 then x.s.t.qtid else x.s.t.tid
            else y == x
  {
    hide Request, Reply, Connected, Disconnect, Answered, CallConnected, Initiate;
  }

  /** A StopCCN of the peer closes the tunnel for good, whatever its state, exactly if it names
      it or the peer has not been asked its name yet; otherwise it is as if it had not come. */
  lemma StopCloses(x: Tun, m: M.Message, a: Arrival, cfg: Config, h: Hash)
    requires x.s.c.isSelf && !x.dead && m.StopCcn? && M.Sized(m)
    ensures M.AllSendable(M.Attrs(m))
    ensures var y, tid := Next(x, Arrives(m, a), cfg, h), NamedTunnel(x, cfg);
            && !y.dead && y.s.t.state == x.s.t.state
            && if m.tid == tid || tid <= 0 then
                 && y.closing && !y.s.c.needClose && !Running(y)
                 && y.s.t.tid == if x.s.t.tid == 0 then m.tid else x.s.t.tid
               else y.closing == x.closing && y.s.c.needClose == x.s.c.needClose && y.s.t.tid == x.s.t.tid
  {
    assert Allows(Fresh(x.s, a.list), m);
    var s := M.Learned(Fresh(x.s, a.list), m);
    assert s.c.msgtype == STOPCCN && s.t.qtid == m.tid && s.c.result == m.result >= 1;
    assert s.t.state == x.s.t.state && s.c.needClose == x.s.c.needClose && s.t.tid == x.s.t.tid;
    assert NamedTunnel(x.(s := s), cfg) == NamedTunnel(x, cfg);
    hide M.Learned, M.Attrs, M.AllSendable, Next, StateAllows, M.Sized, Finish, NamesOurs;
    TunnelGets(x, m, a, cfg, h);
    StopDoes(x.(s := s), Owner(cfg.lac, false, s.c.result), cfg, h, a.env);
    StopKeeps(x.(s := s), Owner(cfg.lac, false, s.c.result), cfg, h, a.env);
  }

  lemma StopKeeps(x: Tun, o: Owner, cfg: Config, h: Hash, env: Env)
    requires x.s.c.msgtype in {STOPCCN, CDN, HELLO}
    ensures var y := Finish(x, o, cfg, h, env); y.dead == x.dead && y.s.t.state == x.s.t.state
  {
    hide Request, Reply, Connected, Answered, CallConnected, Initiate, NamesOurs;
  }

  /** The identifier by which the peer names a call. */
  function NamedCall(x: Tun, cid: int, env: Env): int {
    if NamesOurs(x.s.t) then env.ourcid as int else cid
  }

  lemma DisconnectDoes(x: Tun, o: Owner, cfg: Config, h: Hash, env: Env)
    requires x.s.c.msgtype == CDN && x.s.c.qcid >= 0 && x.s.c.result >= 0
    ensures var y, c := Finish(x, o, cfg, h, env), x.s.c;
            var cid := NamedCall(x, if c.isSelf then c.qcid else c.cid, env);
            if (c.isSelf ==> Lists(x.s.calls, c.qcid)) && (c.qcid == cid || cid <= 0)
            then y.closing && !y.s.c.needClose else y == x
  {
    hide Request, Reply, Connected, Stop, Answered, CallConnected, Initiate, Lists, NamesOurs;
  }

  /** A CDN on a call closes that call for good exactly if it names it. */
  lemma DisconnectCloses(x: Tun, m: M.Message, a: Arrival, call: CallInfo, lac: bool, lns: bool, cfg: Config, h: Hash)
    requires IsCall(call, a.list) && !x.dead && m.Cdn? && M.Sized(m)
    ensures M.AllSendable(M.Attrs(m)) && Possible(ArrivesOn(m, a, call, lac, lns))
    ensures var y, cid := CallAfter(x, ArrivesOn(m, a, call, lac, lns), cfg, h), NamedCall(x, call.cid, a.env);
            && !y.dead && y.s.t.state == x.s.t.state
            && if m.cid == cid || cid <= 0 then y.closing && !y.s.c.needClose
               else !y.closing && y.s.c.needClose == call.needClose
  {
    var s0 := Fresh(x.s.(c := call), a.list);
    assert Allows(s0, m);
    var s := M.Learned(s0, m);
    assert s.c.msgtype == CDN && s.c.qcid == m.cid && s.c.result == m.result >= 1 && !s.c.isSelf && s.c.cid == call.cid;
    assert s.t.state == x.s.t.state && s.c.needClose == call.needClose;
    var x1, o := x.(s := s, closing := false), Owner(lac, lns, x.s.c.result);
    assert NamedCall(x1, call.cid, a.env) == NamedCall(x, call.cid, a.env);
    hide M.Learned, M.Attrs, M.AllSendable, CallAfter, StateAllows, M.Sized, Finish, NamesOurs, Lists, Possible;
    CallGets(x, m, a, call, lac, lns, cfg, h);
    DisconnectDoes(x1, o, cfg, h, a.env);
    StopKeeps(x1, o, cfg, h, a.env);
  }

  /** On the tunnel itself a CDN that names one of the calls closes the tunnel. */
  lemma DisconnectOnTunnel(x: Tun, m: M.Message, a: Arrival, cfg: Config, h: Hash)
    requires x.s.c.isSelf && !x.dead && m.Cdn? && M.Sized(m)
    ensures M.AllSendable(M.Attrs(m))
    ensures var y, cid := Next(x, Arrives(m, a), cfg, h), NamedCall(x, m.cid, a.env);
            && !y.dead && y.s.t.state == x.s.t.state && y.s.calls == a.list
            && if Lists(a.list, m.cid) && (m.cid == cid || cid <= 0) then y.closing && !y.s.c.needClose && !Running(y)
               else y.closing == x.closing && y.s.c.needClose == x.s.c.needClose
  {
    var s0 := Fresh(x.s, a.list);
    assert Allows(s0, m);
    var s := M.Learned(s0, m);
    assert s.c.msgtype == CDN && s.c.qcid == m.cid && s.c.result == m.result >= 1 && s.c.isSelf && s.calls == a.list;
    assert s.t.state == x.s.t.state && s.c.needClose == x.s.c.needClose;
    var x1, o := x.(s := s), Owner(cfg.lac, false, s.c.result);
    assert NamedCall(x1, m.cid, a.env) == NamedCall(x, m.cid, a.env);
    hide M.Learned, M.Attrs, M.AllSendable, Next, StateAllows, M.Sized, Finish, NamesOurs, Lists, Possible;
    TunnelGets(x, m, a, cfg, h);
    DisconnectDoes(x1, o, cfg, h, a.env);
    StopKeeps(x1, o, cfg, h, a.env);
    DisconnectCalls(x1, o, cfg, h, a.env);
  }

  lemma DisconnectCalls(x: Tun, o: Owner, cfg: Config, h: Hash, env: Env)
    requires x.s.c.msgtype == CDN
    ensures Finish(x, o, cfg, h, env).s.calls == x.s.calls
  {
    hide Request, Reply, Connected, Stop, Answered, CallConnected, Initiate, Lists, NamesOurs;
  }

  /** A Hello changes nothing, on the tunnel or on a call. */
  lemma HelloKeeps(x: Tun, a: Arrival, cfg: Config, h: Hash)
    requires !x.dead
    ensures M.AllSendable(M.Attrs(M.Hello))
    ensures var y := Next(x, Arrives(M.Hello, a), cfg, h);
            y == x.(s := Fresh(x.s, a.list).(c := x.s.c.(msgtype := HELLO)))
  {
    assert Allows(Fresh(x.s, a.list), M.Hello);
    hide M.Attrs, M.AllSendable, Next, StateAllows, M.Sized;
    TunnelGets(x, M.Hello, a, cfg, h);
    hide Request, Reply, Connected, Stop, Disconnect, Answered, CallConnected, Initiate;
  }

  /** The call we asked for is answered: it is connected, under the peer's identifier and with
      the framing both can do. */
  lemma AnswerConnects(x: Tun, m: M.Message, a: Arrival, call: CallInfo, lns: bool, cfg: Config, h: Hash)
    requires IsCall(call, a.list) && !x.dead && m.Icrp? && M.Sized(m) && x.s.t.state == SCCCN && call.state == ICRQ
    ensures M.AllSendable(M.Attrs(m)) && Possible(ArrivesOn(m, a, call, true, lns))
    ensures var y := CallAfter(x, ArrivesOn(m, a, call, true, lns), cfg, h);
            && !y.dead && !y.closing && y.s.c.needClose == call.needClose && y.s.t.state == SCCCN
            && y.s.c.state == ICCN && y.s.c.cid == m.cid && y.s.c.frame == if x.s.t.fc % 2 == 1 then 1 else 2
  {
    var s0 := Fresh(x.s.(c := call), a.list);
    assert Allows(s0, m);
    var s := M.Learned(s0, m);
    assert s.c.msgtype == ICRP && s.c.cid == m.cid && s.c.needClose == call.needClose;
    assert s.t.state == SCCCN && s.t.fc == x.s.t.fc;
    hide M.Learned, M.Attrs, M.AllSendable, CallAfter, StateAllows, M.Sized, Possible, Finish;
    CallGets(x, m, a, call, true, lns, cfg, h);
    FinishCall(x.(s := s, closing := false), Owner(true, lns, x.s.c.result), cfg, h, a.env);
  }

  lemma FinishCall(x: Tun, o: Owner, cfg: Config, h: Hash, env: Env)
    requires x.s.c.msgtype in {ICRP, ICCN}
    ensures Finish(x, o, cfg, h, env) ==
              if x.s.c.msgtype == ICRP then TunnelAuth.Answered(x, o) else CallConnected(x, o)
  {
    hide Request, Reply, Connected, Stop, Disconnect, TunnelAuth.Answered, CallConnected, Initiate;
  }

  /** An answer without a number asks for the call to be closed; a connection on the tunnel itself
      does nothing. */
  lemma UnnumberedAnswer(x: Tun, o: Owner, cfg: Config, h: Hash, env: Env)
    ensures x.s.c.msgtype == ICRP && x.s.c.cid < 0 ==>
              Finish(x, o, cfg, h, env) == x.(s := x.s.(c := x.s.c.(needClose := true)))
    ensures x.s.c.msgtype == ICCN && x.s.c.isSelf ==> Finish(x, o, cfg, h, env) == x
  {
    hide Request, Reply, Connected, Stop, Disconnect, Initiate;
  }

  /** What takes a running tunnel down: being asked to close, sending its StopCCN, a message tried
      to the end, a tunnel request repeated; one that is asked and has sent its StopCCN is done
      with when that is acknowledged or given up. */
  lemma ClosingEvents(x: Tun, e: Event, cfg: Config, h: Hash)
    requires !x.dead && !e.Message? && !e.OnCall?
    ensures var y := Next(x, e, cfg, h);
            && (e.AskClose? || (e.TimedOut? && !x.s.c.needClose) ==> y.s.c.needClose && y.closing == x.closing)
            && (e.CloseSent? ==> y.closing && y.s.c.needClose == x.s.c.needClose)
            && (e.Dropped? || (e.TimedOut? && x.s.c.needClose) ==> y.closing && !y.s.c.needClose)
            && (e.CloseAcked? ==> y.closing == x.closing && (y.s.c.needClose <==> x.s.c.needClose && !x.closing))
            && (e.CloseAcked? || !Running(y)) && y.s.t == x.s.t && y.them == x.them && y.lns == x.lns
  {
  }

  /** The call the peer asked for is connected, with the speeds and framing it says. */
  lemma ConnectionConnects(x: Tun, m: M.Message, a: Arrival, call: CallInfo, lac: bool, cfg: Config, h: Hash)
    requires IsCall(call, a.list) && !x.dead && x.lns && m.Iccn? && M.Sized(m) && call.state == ICRP
    ensures M.AllSendable(M.Attrs(m)) && Possible(ArrivesOn(m, a, call, lac, true))
    ensures var y := CallAfter(x, ArrivesOn(m, a, call, lac, true), cfg, h);
            && !y.dead && !y.closing && y.s.c.needClose == call.needClose && y.s.t.state == x.s.t.state
            && y.s.c.state == ICCN && y.s.c.cid == call.cid
            && y.s.c.txspeed == m.txspeed && y.s.c.rxspeed == m.rxspeed && y.s.c.frame == m.frame % 0x1_0000
  {
    var s0 := Fresh(x.s.(c := call), a.list);
    assert Allows(s0, m);
    var s := M.Learned(s0, m);
    assert s.c.msgtype == ICCN && s.c.cid == call.cid && s.c.needClose == call.needClose && !s.c.isSelf;
    assert s.t.state == x.s.t.state && s.c.txspeed == m.txspeed && s.c.rxspeed == m.rxspeed;
    assert s.c.frame == m.frame % 0x1_0000;
    hide M.Learned, M.Attrs, M.AllSendable, CallAfter, StateAllows, M.Sized, Possible, Finish;
    CallGets(x, m, a, call, lac, true, cfg, h);
    FinishCall(x.(s := s, closing := false), Owner(lac, true, x.s.c.result), cfg, h, a.env);
  }

  // ----- the digest, by MD5 -----

  /** MD5 as the hash of the model. */
  function Md5Hash(f: Md5.Transform): Hash {
    m => Md5.Digest(f, m)
  }

  /** The response worked out by the streaming MD5 is the one the model asks for. */
  method Respond(f: Md5.Transform, ss: byte, secret: seq<byte>, challenge: seq<byte>) returns (response: seq<byte>)
    requires |secret| < 0x1_0000_0000 && |challenge| < 0x1_0000_0000
    ensures response == Md5Hash(f)([ss] + secret + challenge)
  {
    response := Md5.ChallengeDigest(f, ss, secret, challenge);
  }
}
