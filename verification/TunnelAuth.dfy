/** Tunnel authentication (section 5.1.1 of RFC 2661): one tunnel, any control packets at
    all, and what its being established says about the peer. */
module TunnelAuth {
  import opened Words
  import opened HiddenAvp
  import opened AvpHandlers
  import opened AvpParser
  import opened WalkEffects

  // ----- the tunnel -----

  datatype Role = Initiator | Responder

  datatype Secret = NoSecret | Secret(bytes: seq<byte>)

  /** What the configuration says: whether there is an entry for a peer we dial and whether it
      is challenged, whether a peer that dials us has one and is challenged, and the secret
      shared with a peer of a given name under either kind of entry. */
  datatype Config = Config(role: Role, lac: bool, lacWants: bool, authorized: bool, lnsWants: bool,
                           secret: (bool, seq<byte>) -> Secret, ourtid: u16)

  /** Our challenge to the peer and the reply we expect. */
  datatype Them = Them(challenged: bool, challenge: seq<byte>, response: seq<byte>)

  /** `s.c` is the tunnel's own call record; `lns` says that the entry for a peer that dials us
      has been looked up, `dead` that the daemon has accessed what is not there. */
  datatype Tun = Tun(s: Session, closing: bool, them: Them, lns: bool, dead: bool)

  predicate Running(x: Tun) {
    !x.s.c.needClose && !x.closing && !x.dead
  }

  /** The proof of knowing the secret. */
  function Digest(h: Hash, ss: byte, secret: seq<byte>, challenge: seq<byte>): Sig {
    h([ss] + secret + challenge)
  }

  /** The secret is looked up under the entry the tunnel has. */
  function SecretFor(x: Tun, cfg: Config): Secret {
    if !x.lns && !cfg.lac then NoSecret else cfg.secret(x.lns, x.s.t.hostname)
  }

  function Fail(x: Tun): Tun {
    x.(s := x.s.SetError(VENDOR_ERROR))
  }

  /** Closed by the peer, or not wanted. */
  function Closed(x: Tun): Tun {
    x.(s := x.s.(c := x.s.c.(needClose := false)), closing := true)
  }

  function InState(x: Tun, state: int): Tun {
    x.(s := x.s.(t := x.s.t.(state := state)))
  }

  function Dead(x: Tun): Tun {
    x.(dead := true)
  }

  /** What a packet meets that is not in it: a fresh random challenge, another tunnel with
      the same peer and identifier, our own identifier of the call that a disconnect names. */
  datatype Env = Env(random: seq<byte>, duplicate: bool, ourcid: u16)

  /** The entries on the record of the call a message is for, and the result code of the
      tunnel's own. */
  datatype Owner = Owner(lac: bool, lns: bool, result: int)

  const OLD_VENDOR: seq<byte> := [68, 101, 116, 101, 114, 109, 105, 110, 105, 115, 116, 105, 99, 32,
                                  78, 101, 116, 119, 111, 114, 107, 115, 32, 73, 110, 99, 46]

  /** Ask for the tunnel. */
  function Initiate(x: Tun, cfg: Config, env: Env): Tun {
    var x1 := InState(x, SCCRQ);
    if (cfg.lac && cfg.lacWants) || (x.lns && cfg.lnsWants)
    then x1.(them := x.them.(challenged := true, challenge := env.random))
    else x1
  }

  function Request(x: Tun, cfg: Config, h: Hash, env: Env): Tun {
    var t, x1 := x.s.t, x.(lns := cfg.authorized);
    if t.tid <= 0 then Fail(x)
    else if !cfg.authorized || t.fc < 0 || (t.hostname == [] && (t.challenge.Challenge? || cfg.lnsWants)) then Fail(x1)
    else if env.duplicate then Closed(x1)
    else if !cfg.lnsWants then InState(x1, SCCRP)
    else
      match SecretFor(x1, cfg)
      case NoSecret => Fail(InState(x1, SCCRP).(them := x.them.(challenge := env.random)))
      case Secret(b) => InState(x1, SCCRP).(them := Them(true, env.random, Digest(h, SCCCN, b, env.random)))
  }

  function Reply(x: Tun, cfg: Config, h: Hash): Tun {
    var t := x.s.t;
    if t.fc < 0 || (t.hostname == [] && (x.them.challenged || t.challenge.Challenge?)) || t.tid <= 0 then Fail(x)
    else
      var secret := SecretFor(x, cfg);
      if x.them.challenged then
        if secret.NoSecret? then Fail(x)
        else
          var x1 := x.(them := x.them.(response := Digest(h, SCCRP, secret.bytes, x.them.challenge)));
          if t.reply != x1.them.response then Fail(x1) else InState(x1, SCCCN)
      else if t.challenge.Challenge? && secret.NoSecret? then Fail(x)
      else InState(x, SCCCN)
  }

  /** The name of the entry is logged at once, looked up or not. */
  function Connected(x: Tun): Tun {
    if x.them.challenged && x.s.t.reply != x.them.response then Fail(x)
    else if x.lns then InState(x, SCCCN)
    else Dead(InState(x, SCCCN))
  }

  /** Some peers name their ends of tunnels and calls by our identifiers. */
  predicate NamesOurs(t: TunnelInfo) {
    t.firmware == 0xff00 && OLD_VENDOR <= t.vendor
  }

  function Stop(x: Tun, o: Owner, cfg: Config): Tun {
    var t := x.s.t;
    var tid := if NamesOurs(t) then cfg.ourtid as int else t.tid;
    if t.qtid < 0 || (t.qtid != tid && tid > 0) then x
    else
      var x1 := if t.tid == 0 then x.(s := x.s.(t := t.(tid := t.qtid))) else x;
      if o.result < 0 then x1 else Closed(x1)
  }

  predicate Lists(calls: seq<ListedCall>, cid: int) {
    exists i :: 0 <= i < |calls| && calls[i].cid == cid
  }

  /** On the tunnel itself the call is looked up by the peer's identifier, and yet it is the
      tunnel that is closed. */
  function Disconnect(x: Tun, env: Env): Tun {
    var c := x.s.c;
    var cid := if NamesOurs(x.s.t) then env.ourcid as int else if c.isSelf then c.qcid else c.cid;
    if c.qcid < 0 || (c.isSelf && !Lists(x.s.calls, c.qcid)) || (c.qcid != cid && cid > 0) then x
    else
      var x1 := x.(s := x.s.(c := x.s.c.(qcid := -1)));
      if x.s.c.result < 0 then x1 else Closed(x1)
  }

  /** A call is answered: pppd is started with the options of its entry. */
  function Answered(x: Tun, o: Owner): Tun {
    var c := x.s.c;
    if c.cid < 0 then x.(s := x.s.(c := c.(needClose := true)))
    else
      var x1 := x.(s := x.s.(c := c.(state := ICCN, frame := if x.s.t.fc % 2 == 1 then 1 else 2)));
      if o.lac then x1 else Dead(x1)
  }

  function CallConnected(x: Tun, o: Owner): Tun {
    if x.s.c.isSelf then x
    else
      var x1 := x.(s := x.s.(c := x.s.c.(state := ICCN)));
      if x.lns && o.lns then x1 else Dead(x1)
  }

  /** What is done when all attributes of a message have been handled. `x.s.c` is the call it
      came in on, and `x.closing` that call's; what happens to other calls is left out. */
  function Finish(x: Tun, o: Owner, cfg: Config, h: Hash, env: Env): Tun {
    match x.s.c.msgtype
    case -1 => x
    case 0 => if x.s.c.isSelf then Initiate(x, cfg, env) else x
    case 1 => Request(x, cfg, h, env)
    case 2 => Reply(x, cfg, h)
    case 3 => Connected(x)
    case 4 => Stop(x, o, cfg)
    case 6 => x
    case 8 => x
    case 9 => if o.lac then x else Dead(x)
    case 10 => if x.s.calls == [] then Dead(x) else x
    case 11 => Answered(x, o)
    case 12 => CallConnected(x, o)
    case 14 => Disconnect(x, env)
    case 16 => x
    case _ => Fail(x)
  }

  /** The session a packet starts with, the tunnel's calls being `list`. */
  function Fresh(s: Session, list: seq<ListedCall>): Session {
    s.(c := s.c.(msgtype := -1), t := s.t.(vector := NoVector), calls := list)
  }

  datatype Event =
    | Message(buf: seq<byte>, at: nat, len: nat, key: seq<byte>, list: seq<ListedCall>, env: Env)
    | OnCall(buf: seq<byte>, at: nat, len: nat, key: seq<byte>, list: seq<ListedCall>, env: Env,
             call: CallInfo, lac: bool, lns: bool)
    | AskClose
    | CloseSent
    | CloseAcked
    | TimedOut
    | Dropped

  /** The session the packet of an event is parsed in. */
  function Start(x: Tun, e: Event): Session
    requires e.Message? || e.OnCall?
  {
    Fresh(if e.Message? then x.s else x.s.(c := e.call), e.list)
  }

  ghost function Parsed(x: Tun, e: Event, h: Hash): Parse
    requires (e.Message? || e.OnCall?) && Possible(e)
  {
    Walk(e.buf, e.at, e.len, true, Start(x, e), h, e.key)
  }

  /** A packet parsed and acted on, for the call in `x.s.c`. */
  function Acted(x: Tun, w: Parse, o: Owner, cfg: Config, h: Hash, env: Env): Tun {
    var x1 := x.(s := w.s);
    if !w.access.Fine? then Dead(x1) else if w.ok then Finish(x1, o, cfg, h, env) else x1
  }

  /** The tunnel after a packet on a call, with the record and the close of that call. */
  ghost function CallAfter(x: Tun, e: Event, cfg: Config, h: Hash): Tun
    requires e.OnCall? && Possible(e)
  {
    Acted(x.(closing := false), Parsed(x, e, h), Owner(e.lac, e.lns, x.s.c.result), cfg, h, e.env)
  }

  ghost function Next(x: Tun, e: Event, cfg: Config, h: Hash): Tun
    requires Possible(e)
  {
    if x.dead then x
    else
      match e
      case Message(_, _, _, _, _, env) =>
        var w := Parsed(x, e, h);
        Acted(x, w, Owner(cfg.lac, false, w.s.c.result), cfg, h, env)
      case OnCall(_, _, _, _, _, _, _, _, _) =>
        var y := CallAfter(x, e, cfg, h);
        x.(s := y.s.(c := x.s.c), them := y.them, lns := y.lns, dead := y.dead)
      case AskClose => x.(s := x.s.(c := x.s.c.(needClose := true)))
      case CloseSent => x.(closing := true)
      case CloseAcked => if x.s.c.needClose && x.closing then x.(s := x.s.(c := x.s.c.(needClose := false))) else x
      case TimedOut => if x.s.c.needClose then Closed(x) else x.(s := x.s.(c := x.s.c.(needClose := true)))
      case Dropped => Closed(x)
  }

  predicate Possible(e: Event) {
    match e
    case Message(buf, at, len, _, _, _) => at + len <= |buf|
    case OnCall(buf, at, len, _, list, _, call, _, _) =>
      at + len <= |buf| && !call.isSelf && list != [] && (call.isHead ==> list[0].cid == call.cid)
    case _ => true
  }

  /** No Message Type of the packet fails its check under a clear M bit. */
  ghost predicate Checked(x: Tun, e: Event, h: Hash)
    requires Possible(e)
  {
    e.Message? || e.OnCall? ==> AllHeeded(e.buf, e.at, e.len, true, Start(x, e), h, e.key)
  }

  /** How a tunnel comes into being: asked for by us, or about to be asked for by the peer. */
  predicate Starts(x: Tun, cfg: Config) {
    && x.s.c.isSelf && x.s.c.state == 0 && Running(x) && !x.lns && x.s.t.challenge.NoChallenge?
    && (cfg.role.Initiator? ==> x.s.t.state == SCCRQ && (cfg.lac && cfg.lacWants ==> x.them.challenged))
    && (cfg.role.Responder? ==> x.s.t.state == 0 && !x.them.challenged && !cfg.lac)
  }

  /** A peer is challenged under the entry its tunnel has, and must be under that of a peer
      that dials us if it does. */
  predicate Wanted(x: Tun, cfg: Config) {
    if cfg.role.Responder? || x.lns then cfg.lnsWants else cfg.lac && cfg.lacWants
  }

  /** The peer has answered our challenge with the secret we share with it, as the one who
      asked for the tunnel or as the one who was asked. */
  predicate Proven(x: Tun, cfg: Config, h: Hash) {
    var secret := SecretFor(x, cfg);
    && secret.Secret?
    && x.s.t.reply == h([if x.lns then SCCCN else SCCRP] + secret.bytes + x.them.challenge)
  }

  /** A request was answered: the reply we will ask for is the right one. */
  predicate Expecting(x: Tun, cfg: Config, h: Hash) {
    var secret := SecretFor(x, cfg);
    x.them.challenged && secret.Secret? && x.them.response == h([SCCCN] + secret.bytes + x.them.challenge)
  }

  predicate Sound(x: Tun, cfg: Config, h: Hash) {
    && x.s.c.isSelf && x.s.c.state == 0 && x.s.t.state in {0, SCCRQ, SCCRP, SCCCN}
    && (x.s.t.state == SCCRQ ==> cfg.role.Initiator? && (cfg.lac && cfg.lacWants ==> x.them.challenged))
    && (x.s.t.state == SCCRP ==> x.lns)
    && (x.s.t.state == SCCCN && cfg.role.Responder? ==> x.lns)
    && (Running(x) ==>
          && (x.s.t.state in {0, SCCRQ} ==> !x.lns)
          && (x.s.t.state == SCCRP && cfg.lnsWants ==> Expecting(x, cfg, h))
          && (x.s.t.state == SCCCN && Wanted(x, cfg) ==> Proven(x, cfg, h)))
  }

  // ----- every event keeps it -----

  lemma RequestKeepsSound(x: Tun, cfg: Config, h: Hash, env: Env)
    requires Sound(x, cfg, h) && x.s.t.state in {0, SCCRQ}
    ensures Sound(Request(x, cfg, h, env), cfg, h)
  {
  }

  lemma ReplyKeepsSound(x: Tun, cfg: Config, h: Hash)
    requires Sound(x, cfg, h) && x.s.t.state == SCCRQ
    ensures Sound(Reply(x, cfg, h), cfg, h)
  {
  }

  lemma ConnectedKeepsSound(x: Tun, cfg: Config, h: Hash)
    requires Sound(x, cfg, h) && x.s.t.state == SCCRP
    ensures Sound(Connected(x), cfg, h)
  {
    hide Digest;
  }

  lemma LeavingKeepsSound(x: Tun, o: Owner, cfg: Config, h: Hash, env: Env)
    requires Sound(x, cfg, h)
    ensures Sound(Stop(x, o, cfg), cfg, h) && Sound(Disconnect(x, env), cfg, h)
  {
    hide Digest;
  }

  lemma FinishKeepsSound(x: Tun, o: Owner, cfg: Config, h: Hash, env: Env)
    requires Sound(x, cfg, h) && TypeOk(x.s)
    ensures Sound(Finish(x, o, cfg, h, env), cfg, h)
  {
    assert x.s.c.msgtype in {-1, 1, 2, 3, 4, 6, 10, 14};
    hide Request, Reply, Connected, Stop, Disconnect, Proven, Expecting;
    match x.s.c.msgtype
    case 1 => RequestKeepsSound(x, cfg, h, env);
    case 2 => ReplyKeepsSound(x, cfg, h);
    case 3 => ConnectedKeepsSound(x, cfg, h);
    case 4 => LeavingKeepsSound(x, o, cfg, h, env);
    case 14 => LeavingKeepsSound(x, o, cfg, h, env);
    case 10 => DeadSound(x, cfg, h);
    case _ =>
  }

  /** A message a call's state allows does nothing to the tunnel. */
  lemma CallFinishKeeps(x: Tun, o: Owner, cfg: Config, h: Hash, env: Env)
    requires !x.s.c.isSelf && TypeOk(x.s)
    ensures var y := Finish(x, o, cfg, h, env); y.s.t == x.s.t && y.them == x.them && y.lns == x.lns
  {
    hide Request, Reply, Connected, Stop, Initiate;
  }

  /** A packet changes the reply or the name only where no proof depends on them. */
  lemma KeptSound(x: Tun, s0: Session, s1: Session, cfg: Config, h: Hash)
    requires Sound(x, cfg, h) && s0.t == x.s.t.(vector := s0.t.vector) && Kept(s0, s1)
    requires s0.c.isSelf ==> s0.c == x.s.c.(msgtype := s0.c.msgtype)
    ensures Sound(x.(s := if s0.c.isSelf then s1 else s1.(c := x.s.c)), cfg, h)
  {
    hide Digest;
  }

  /** Nor does it matter what became of the daemon. */
  lemma DeadSound(x: Tun, cfg: Config, h: Hash)
    requires Sound(x, cfg, h)
    ensures Sound(Dead(x), cfg, h)
  {
    hide Expecting, Proven;
  }

  lemma FreshTypeOk(s: Session, list: seq<ListedCall>)
    ensures TypeOk(Fresh(s, list))
  {
  }

  lemma MessageKeepsSound(x: Tun, e: Event, cfg: Config, h: Hash)
    requires e.Message? && Possible(e) && Checked(x, e, h) && Sound(x, cfg, h) && !x.dead
    ensures Sound(Next(x, e, cfg, h), cfg, h)
  {
    var w, s0 := Parsed(x, e, h), Start(x, e);
    FreshTypeOk(x.s, e.list);
    WalkKeeps(e.buf, e.at, e.len, true, s0, h, e.key);
    assert x.s.c.isSelf;
    hide Walk, AllHeeded, TypeOk, Finish, Sound, Kept;
    KeptSound(x, s0, w.s, cfg, h);
    DeadSound(x.(s := w.s), cfg, h);
    if w.ok {
      FinishKeepsSound(x.(s := w.s), Owner(cfg.lac, false, w.s.c.result), cfg, h, e.env);
    }
  }

  lemma CallKeepsSound(x: Tun, e: Event, cfg: Config, h: Hash)
    requires e.OnCall? && Possible(e) && Checked(x, e, h) && Sound(x, cfg, h) && !x.dead
    ensures Sound(Next(x, e, cfg, h), cfg, h)
  {
    var w, s0 := Parsed(x, e, h), Start(x, e);
    FreshTypeOk(x.s.(c := e.call), e.list);
    WalkKeeps(e.buf, e.at, e.len, true, s0, h, e.key);
    assert Kept(s0, w.s) ==> !w.s.c.isSelf;
    hide Walk, AllHeeded, TypeOk, Finish, Sound, Kept;
    KeptSound(x, s0, w.s, cfg, h);
    var o, y := Owner(e.lac, e.lns, x.s.c.result), x.(s := w.s, closing := false);
    if w.ok {
      CallFinishKeeps(y, o, cfg, h, e.env);
    }
    SameFieldsSound(x.(s := w.s.(c := x.s.c)), Next(x, e, cfg, h), cfg, h);
  }

  lemma SameFieldsSound(x: Tun, y: Tun, cfg: Config, h: Hash)
    requires Sound(x, cfg, h) && y.s.t == x.s.t && y.s.c == x.s.c && y.them == x.them && y.lns == x.lns
    requires y.closing == x.closing && (x.dead ==> y.dead)
    ensures Sound(y, cfg, h)
  {
    hide Digest;
  }

  lemma FlagsKeepSound(x: Tun, e: Event, cfg: Config, h: Hash)
    requires Sound(x, cfg, h) && !e.Message? && !e.OnCall? && Possible(e)
    ensures Sound(Next(x, e, cfg, h), cfg, h)
  {
    hide Digest;
  }

  lemma EventKeepsSound(x: Tun, e: Event, cfg: Config, h: Hash)
    requires Possible(e) && Checked(x, e, h) && Sound(x, cfg, h)
    ensures Sound(Next(x, e, cfg, h), cfg, h)
  {
    if x.dead {
    } else if e.Message? {
      MessageKeepsSound(x, e, cfg, h);
    } else if e.OnCall? {
      CallKeepsSound(x, e, cfg, h);
    } else {
      FlagsKeepSound(x, e, cfg, h);
    }
  }

  lemma FinishStaysDown(x: Tun, o: Owner, cfg: Config, h: Hash, env: Env)
    requires !Running(x)
    ensures !Running(Finish(x, o, cfg, h, env))
  {
    hide Request, Reply, Connected, Stop, Disconnect, Answered, CallConnected, Initiate;
    SetupStaysDown(x, cfg, h, env);
    LeavingStaysDown(x, o, cfg, env);
    CallStaysDown(x, o, cfg, env);
  }

  lemma LeavingStaysDown(x: Tun, o: Owner, cfg: Config, env: Env)
    requires !Running(x)
    ensures !Running(Stop(x, o, cfg)) && !Running(Disconnect(x, env)) && !Running(Connected(x))
  {
  }

  lemma CallStaysDown(x: Tun, o: Owner, cfg: Config, env: Env)
    requires !Running(x)
    ensures !Running(Answered(x, o)) && !Running(CallConnected(x, o)) && !Running(Initiate(x, cfg, env))
  {
  }

  lemma SetupStaysDown(x: Tun, cfg: Config, h: Hash, env: Env)
    requires !Running(x)
    ensures !Running(Request(x, cfg, h, env)) && !Running(Reply(x, cfg, h))
  {
    hide Digest, SecretFor;
  }

  /** Once it is not running a tunnel never runs again, whatever arrives; nor does a call,
      whose record takes the place of the tunnel's own. */
  lemma StaysDown(x: Tun, e: Event, cfg: Config, h: Hash)
    requires Possible(e) && !Running(x)
    ensures !Running(Next(x, e, cfg, h))
  {
    hide Walk, Finish;
    if e.Message? && !x.dead {
      var w := Parsed(x, e, h);
      WalkSteady(e.buf, e.at, e.len, true, Start(x, e), h, e.key);
      assert !Running(x.(s := w.s));
      FinishStaysDown(x.(s := w.s), Owner(cfg.lac, false, w.s.c.result), cfg, h, e.env);
    }
  }

  // ----- the daemon survives -----

  /** The entries whose options are used when a call message is acted on: those of a peer we
      dial when a call is answered or connected for us, those of a peer that dials us, on the
      call and on the tunnel, when the peer connects one. */
  predicate Entered(c: CallInfo, lac: bool, lns: bool) {
    && (c.msgtype == ICRP && c.cid >= 0 ==> lac)
    && (c.msgtype == OCCN ==> lac)
    && (c.msgtype == ICCN ==> lns)
  }

  /** The packet is parsed inside its buffer, its list of calls and the table of names, and if
      it is accepted on a call that call has the entries its message needs. */
  ghost predicate Provided(x: Tun, e: Event, h: Hash)
    requires Possible(e)
  {
    e.Message? || e.OnCall? ==>
      var w := Parsed(x, e, h);
      w.access.Fine? && (e.OnCall? && w.ok ==> Entered(w.s.c, e.lac, e.lns && x.lns))
  }

  lemma FinishSurvives(x: Tun, o: Owner, cfg: Config, h: Hash, env: Env)
    requires TypeOk(x.s) && Ready(x.s) && !x.dead && (x.s.c.isSelf ==> x.s.c.state == 0)
    requires x.s.t.state == SCCRP ==> x.lns
    ensures !Finish(x, o, cfg, h, env).dead <==> x.s.c.isSelf || Entered(x.s.c, o.lac, o.lns && x.lns)
  {
    hide Digest, SecretFor;
  }

  /** One event: it is survived exactly if what it uses is there. */
  lemma EventSurvives(x: Tun, e: Event, cfg: Config, h: Hash)
    requires Possible(e) && Checked(x, e, h) && Sound(x, cfg, h) && !x.dead
    ensures !Next(x, e, cfg, h).dead <==> Provided(x, e, h)
  {
    if e.Message? || e.OnCall? {
      var w, s0 := Parsed(x, e, h), Start(x, e);
      FreshTypeOk(if e.Message? then x.s else x.s.(c := e.call), e.list);
      WalkKeeps(e.buf, e.at, e.len, true, s0, h, e.key);
      HeededFindsCall(e.buf, e.at, e.len, true, s0, h, e.key);
      hide Walk, AllHeeded, TypeOk, Finish, Ready, Expecting, Proven, Entered;
      if w.ok {
        var o := if e.Message? then Owner(cfg.lac, false, w.s.c.result) else Owner(e.lac, e.lns, x.s.c.result);
        FinishSurvives(x.(s := w.s, closing := if e.Message? then x.closing else false), o, cfg, h, e.env);
      }
    }
  }

  /** A checked packet that begins with a Message Type, in a buffer with five bytes to spare,
      is parsed inside all three. */
  lemma LedIsFine(x: Tun, e: Event, h: Hash)
    requires (e.Message? || e.OnCall?) && Possible(e) && Checked(x, e, h)
    requires e.Message? ==> x.s.c.isSelf && x.s.c.state == 0
    requires e.at + e.len + OVERREACH <= |e.buf| && Led(e.buf, e.at, e.len, Start(x, e), h, e.key)
    ensures Parsed(x, e, h).access.Fine?
  {
    var s0 := Start(x, e);
    FreshTypeOk(if e.Message? then x.s else x.s.(c := e.call), e.list);
    assert Ready(s0);
    hide Walk, AllHeeded, TypeOk, Ready, Led;
    HeededFindsCall(e.buf, e.at, e.len, true, s0, h, e.key);
    HeededIsNamed(e.buf, e.at, e.len, true, s0, h, e.key);
    WalkStaysInside(e.buf, e.at, e.len, true, s0, h, e.key);
  }

  // ----- runs -----

  predicate Arrives(run: seq<Event>) {
    forall i :: 0 <= i < |run| ==> Possible(run[i])
  }

  ghost function Final(x: Tun, run: seq<Event>, cfg: Config, h: Hash): Tun
    requires Arrives(run)
    decreases |run|
  {
    if run == [] then x else Final(Next(x, run[0], cfg, h), run[1..], cfg, h)
  }

  ghost predicate AllChecked(x: Tun, run: seq<Event>, cfg: Config, h: Hash)
    requires Arrives(run)
    decreases |run|
  {
    run == [] || (Checked(x, run[0], h) && AllChecked(Next(x, run[0], cfg, h), run[1..], cfg, h))
  }

  ghost predicate AllProvided(x: Tun, run: seq<Event>, cfg: Config, h: Hash)
    requires Arrives(run)
    decreases |run|
  {
    run == [] || (Provided(x, run[0], h) && AllProvided(Next(x, run[0], cfg, h), run[1..], cfg, h))
  }

  lemma {:induction false} RunIsSound(x: Tun, run: seq<Event>, cfg: Config, h: Hash)
    requires Arrives(run) && AllChecked(x, run, cfg, h) && Sound(x, cfg, h)
    ensures Sound(Final(x, run, cfg, h), cfg, h)
    decreases |run|
  {
    if run != [] {
      hide Next, Checked, Possible, Sound;
      EventKeepsSound(x, run[0], cfg, h);
      RunIsSound(Next(x, run[0], cfg, h), run[1..], cfg, h);
    }
  }

  lemma {:induction false} DeadStays(x: Tun, run: seq<Event>, cfg: Config, h: Hash)
    requires Arrives(run) && x.dead
    ensures Final(x, run, cfg, h).dead
    decreases |run|
  {
    if run != [] {
      DeadStays(Next(x, run[0], cfg, h), run[1..], cfg, h);
    }
  }

  lemma {:induction false} RunSurvives(x: Tun, run: seq<Event>, cfg: Config, h: Hash)
    requires Arrives(run) && AllChecked(x, run, cfg, h) && Sound(x, cfg, h) && !x.dead
    ensures !Final(x, run, cfg, h).dead <==> AllProvided(x, run, cfg, h)
    decreases |run|
  {
    if run != [] {
      hide Next, Checked, Possible, Sound, Provided;
      var y := Next(x, run[0], cfg, h);
      EventKeepsSound(x, run[0], cfg, h);
      EventSurvives(x, run[0], cfg, h);
      if y.dead {
        DeadStays(y, run[1..], cfg, h);
      } else {
        RunSurvives(y, run[1..], cfg, h);
      }
    }
  }

  /** Whatever packets arrive, as long as no failing Message Type hides under a clear M bit:
      a tunnel that is established and not closing, with a peer we challenge, holds a reply
      that only the shared secret gives. */
  lemma EstablishedIsProven(x: Tun, run: seq<Event>, cfg: Config, h: Hash)
    requires Starts(x, cfg) && Arrives(run) && AllChecked(x, run, cfg, h)
    ensures var y := Final(x, run, cfg, h);
            Running(y) && y.s.t.state == SCCCN && Wanted(y, cfg) ==> Proven(y, cfg, h)
  {
    RunIsSound(x, run, cfg, h);
    hide Final, AllChecked, Proven, Expecting;
  }

  /** And the daemon survives such packets exactly if every one of them finds what it uses. */
  lemma CheckedSurvives(x: Tun, run: seq<Event>, cfg: Config, h: Hash)
    requires Starts(x, cfg) && Arrives(run) && AllChecked(x, run, cfg, h)
    ensures !Final(x, run, cfg, h).dead <==> AllProvided(x, run, cfg, h)
  {
    RunSurvives(x, run, cfg, h);
    hide Final, AllChecked, AllProvided, Proven, Expecting;
  }

  lemma {:induction false} NeverRunsAgain(x: Tun, run: seq<Event>, cfg: Config, h: Hash)
    requires Arrives(run) && !Running(x)
    ensures !Running(Final(x, run, cfg, h))
    decreases |run|
  {
    if run != [] {
      hide Next, Possible, Running;
      StaysDown(x, run[0], cfg, h);
      NeverRunsAgain(Next(x, run[0], cfg, h), run[1..], cfg, h);
    }
  }

  // ----- in place -----

  /** The first call the peer knows by this identifier, or the end of the list. */
  method FindCall(calls: seq<ListedCall>, cid: int) returns (k: nat)
    ensures k <= |calls| && (k < |calls| ==> calls[k].cid == cid)
    ensures forall i :: 0 <= i < k ==> calls[i].cid != cid
  {
    k := 0;
    while k < |calls| && calls[k].cid != cid
      invariant k <= |calls| && forall i :: 0 <= i < k ==> calls[i].cid != cid
    {
      k := k + 1;
    }
  }

  /** The fields of a tunnel that its negotiation changes, with the call a message is for. */
  class Record {
    var s: Session
    var closing: bool
    var them: Them
    var lns: bool
    var dead: bool

    ghost function View(): Tun
      reads this
    {
      Tun(s, closing, them, lns, dead)
    }

    constructor (x: Tun)
      ensures View() == x
    {
      s, closing, them, lns, dead := x.s, x.closing, x.them, x.lns, x.dead;
    }

    method SetError()
      modifies this`s
      ensures View() == Fail(old(View()))
    {
      s := s.(c := s.c.(error := VENDOR_ERROR, result := RESULT_ERROR, needClose := true));
    }

    method SetState(state: int)
      modifies this`s
      ensures View() == InState(old(View()), state)
    {
      s := s.(t := s.t.(state := state));
    }

    method MarkClosed()
      modifies this`s, this`closing
      ensures View() == Closed(old(View()))
    {
      s := s.(c := s.c.(needClose := false));
      closing := true;
    }

    /** Work out the reply to our challenge. */
    method HandleChallenge(cfg: Config, h: Hash, ss: byte) returns (ok: bool)
      modifies this`them
      ensures var secret := old(SecretFor(View(), cfg));
              && (ok <==> secret.Secret?)
              && them == if ok then Them(true, old(them).challenge, h([ss] + secret.bytes + old(them).challenge))
                         else old(them)
    {
      if !lns && !cfg.lac {
        return false;
      }
      var secret := cfg.secret(lns, s.t.hostname);
      if secret.NoSecret? {
        return false;
      }
      them := Them(true, them.challenge, Digest(h, ss, secret.bytes, them.challenge));
      return true;
    }

    method OnRequest(cfg: Config, h: Hash, env: Env)
      modifies this
      ensures View() == Request(old(View()), cfg, h, env)
    {
      if s.t.tid <= 0 {
        SetError();
        return;
      }
      lns := cfg.authorized;
      if !lns || s.t.fc < 0 {
        SetError();
        return;
      }
      if s.t.hostname == [] && (s.t.challenge.Challenge? || cfg.lnsWants) {
        SetError();
        return;
      }
      if env.duplicate {
        MarkClosed();
        return;
      }
      SetState(SCCRP);
      if cfg.lnsWants {
        them := them.(challenge := env.random);
        var ok := HandleChallenge(cfg, h, SCCCN);
        if !ok {
          SetError();
        }
      }
    }

    method OnReply(cfg: Config, h: Hash)
      modifies this
      ensures View() == Reply(old(View()), cfg, h)
    {
      if s.t.fc < 0 || (s.t.hostname == [] && (them.challenged || s.t.challenge.Challenge?)) || s.t.tid <= 0 {
        SetError();
        return;
      }
      if them.challenged {
        var ok := HandleChallenge(cfg, h, SCCRP);
        if !ok || s.t.reply != them.response {
          SetError();
          return;
        }
      }
      if s.t.challenge.Challenge? && ((!lns && !cfg.lac) || cfg.secret(lns, s.t.hostname).NoSecret?) {
        SetError();
        return;
      }
      SetState(SCCCN);
    }

    method OnConnected()
      modifies this
      ensures View() == Connected(old(View()))
    {
      if them.challenged && s.t.reply != them.response {
        SetError();
        return;
      }
      SetState(SCCCN);
      if !lns {
        dead := true;
      }
    }

    method OnStop(result: int, cfg: Config)
      modifies this`s, this`closing
      ensures forall o: Owner :: o.result == result ==> View() == Stop(old(View()), o, cfg)
    {
      var tid := if NamesOurs(s.t) then cfg.ourtid as int else s.t.tid;
      if s.t.qtid >= 0 && (s.t.qtid == tid || tid <= 0) {
        if s.t.tid == 0 {
          s := s.(t := s.t.(tid := s.t.qtid));
        }
        if result >= 0 {
          MarkClosed();
        }
      }
    }

    method OnDisconnect(env: Env)
      modifies this`s, this`closing
      ensures View() == Disconnect(old(View()), env)
    {
      if s.c.qcid < 0 {
        return;
      }
      var cid := s.c.cid;
      if s.c.isSelf {
        var k := FindCall(s.calls, s.c.qcid);
        if k == |s.calls| {
          return;
        }
        cid := s.calls[k].cid;
      }
      if NamesOurs(s.t) {
        cid := env.ourcid;
      }
      if s.c.qcid != cid && cid > 0 {
        return;
      }
      s := s.(c := s.c.(qcid := -1));
      if s.c.result >= 0 {
        MarkClosed();
      }
    }

    method Ask(cfg: Config, env: Env)
      modifies this`s, this`them
      ensures View() == Initiate(old(View()), cfg, env)
    {
      SetState(SCCRQ);
      if (cfg.lac && cfg.lacWants) || (lns && cfg.lnsWants) {
        them := Them(true, env.random, them.response);
      }
    }

    /** Messages about the call they came in on. */
    method OnCallMessage(o: Owner)
      requires s.c.msgtype in {9, 10, 11, 12}
      modifies this
      ensures forall cfg: Config, h: Hash, env: Env :: View() == Finish(old(View()), o, cfg, h, env)
    {
      match s.c.msgtype {
        case 9 => dead := dead || !o.lac;
        case 10 => dead := dead || s.calls == [];
        case 11 =>
          if s.c.cid < 0 {
            s := s.(c := s.c.(needClose := true));
          } else {
            s := s.(c := s.c.(state := ICCN, frame := if s.t.fc % 2 == 1 then 1 else 2));
            dead := dead || !o.lac;
          }
        case _ =>
          if !s.c.isSelf {
            s := s.(c := s.c.(state := ICCN));
            dead := dead || !lns || !o.lns;
          }
      }
    }

    /** Finish a message. */
    method ControlFinish(o: Owner, cfg: Config, h: Hash, env: Env)
      modifies this
      ensures View() == Finish(old(View()), o, cfg, h, env)
    {
      hide Request, Reply, Connected, Stop, Disconnect, Initiate;
      if s.c.msgtype in {9, 10, 11, 12} {
        OnCallMessage(o);
        return;
      }
      match s.c.msgtype
      case 0 =>
        if s.c.isSelf {
          Ask(cfg, env);
        }
      case 1 => OnRequest(cfg, h, env);
      case 2 => OnReply(cfg, h);
      case 3 => OnConnected();
      case 4 => OnStop(o.result, cfg);
      case 14 => OnDisconnect(env);
      case _ =>
        if s.c.msgtype !in {-1, 6, 8, 16} {
          SetError();
        }
    }

    /** A control message on the tunnel: its attributes, then what they amount to. */
    method HandleMessage(buf: array<byte>, at: nat, len: nat, key: seq<byte>, list: seq<ListedCall>, cfg: Config,
                         h: Hash, env: Env)
      requires at + len <= buf.Length && !dead
      modifies this, buf
      ensures View() == Next(old(View()), Message(old(buf[..]), at, len, key, list, env), cfg, h)
    {
      hide Walk, Finish;
      var s1, ok, access := HandleAvps(buf, at, len, Fresh(s, list), h, key);
      s := s1;
      if !access.Fine? {
        dead := true;
      } else if ok {
        ControlFinish(Owner(cfg.lac, false, s.c.result), cfg, h, env);
      }
    }
  }
}
