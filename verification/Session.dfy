/** The connection above the record layer: what HandlePacket and the calls that send do to the session, as functions
    from state to state. `Env` supplies everything the connection cannot see into. */
module Session {
  import opened Bytes
  import opened Wire
  import opened Algorithms
  import opened Environment
  import opened RecordLayer
  import opened KeySchedule

  // Message numbers.
  const MSG_DISCONNECT: byte := 1
  const MSG_UNIMPLEMENTED: byte := 3
  const MSG_SERVICE_REQUEST: byte := 5
  const MSG_SERVICE_ACCEPT: byte := 6
  const MSG_KEXINIT: byte := 20
  const MSG_NEWKEYS: byte := 21
  const MSG_KEXDH_INIT: byte := 30
  const MSG_KEXDH_REPLY: byte := 31
  const MSG_USERAUTH_REQUEST: byte := 50
  const MSG_USERAUTH_FAILURE: byte := 51
  const MSG_USERAUTH_SUCCESS: byte := 52
  const MSG_GLOBAL_REQUEST: byte := 80
  const MSG_REQUEST_FAILURE: byte := 82
  const MSG_CHANNEL_OPEN: byte := 90
  const MSG_CHANNEL_OPEN_CONFIRM: byte := 91
  const MSG_CHANNEL_OPEN_FAILURE: byte := 92
  const MSG_WINDOW_ADJUST: byte := 93
  const MSG_CHANNEL_DATA: byte := 94
  const MSG_EXTENDED_DATA: byte := 95
  const MSG_CHANNEL_EOF: byte := 96
  const MSG_CHANNEL_CLOSE: byte := 97
  const MSG_CHANNEL_REQUEST: byte := 98
  const MSG_CHANNEL_SUCCESS: byte := 99
  const MSG_CHANNEL_FAILURE: byte := 100

  const DISC_PROTOCOL_ERROR: uint32 := 2
  const DISC_KEY_EXCHANGE_FAILED: uint32 := 3
  const DISC_MAC_ERROR: uint32 := 5
  const DISC_BY_APPLICATION: uint32 := 11
  const DISC_NO_MORE_AUTH: uint32 := 14

  const RX_BUF: nat := MAX_PACKET + 256
  const PL_BUF: nat := MAX_PACKET
  const RING_SIZE: nat := 65536
  const LOCAL_WINDOW: uint32 := 32768
  const LOCAL_MAXPKT: uint32 := 32768
  const DATA_CHUNK: nat := 16384
  const MAX_AUTH_TRIES: nat := 5

  datatype SshState = StVersion | StKex | StAuth | StConn | StClosed
  datatype KexState = KxIdle | KxWaitKexInit | KxWaitDh | KxWaitNewKeys

  /** What Negotiate settles, in force from the next key change of each direction. */
  datatype NextAlgs = NextAlgs(encIn: KeyLen, encOut: KeyLen, macIn: MacType, macOut: MacType)

  datatype Chan = Chan(open: bool, remote: uint32, window: uint32, maxPkt: uint32, shellReady: bool,
                       remoteEof: bool, closeSent: bool, closeRecv: bool, cols: uint32, rows: uint32)

  datatype Login = Login(authenticated: bool, tries: nat, user: seq<byte>)

  /** A packet handed to the socket: its payload, its padding and where in the generator's output that begins, the bytes, and
      the key epoch they are under. */
  datatype Sent = Sent(payload: seq<byte>, pad: seq<byte>, at: nat, wire: seq<byte>, epoch: nat)

  /** History: nothing in the connection reads it. */
  datatype Hist = Hist(
    sent: seq<Sent>,             // every packet handed to the socket
    handled: seq<seq<byte>>,     // every payload HandlePacket was given
    auths: seq<bool>,            // every answer of the password callback
    hashes: seq<Bytes32>,        // every exchange hash
    outKeys: seq<Keys>,          // every key set installed for sending
    dropped: nat,                // wrongly guessed packets dropped in the current exchange
    dataIn: seq<byte>,           // CHANNEL_DATA bytes accepted from the client
    dataRead: seq<byte>,         // bytes SshRead has returned
    lost: nat,                   // bytes RingPush had no room for
    granted: nat,                // initial window plus all adjusts handled since the channel opened
    wrapped: bool)               // whether some adjust overflowed 32 bits

  datatype Core = Core(
    state: SshState, kex: KexState, versionSent: bool, version: seq<byte>,
    clientKexInit: seq<byte>, serverKexInit: seq<byte>, kexInitSent: bool, ignoreNext: bool, next: NextAlgs,
    sid: Option<Bytes32>, inDir: Dir, outDir: Dir, pend: Keys,
    ring: seq<byte>, consumed: uint32, chan: Chan, login: Login,
    drawn: nat, writes: nat, hist: Hist)

  /** What a handler returns: the new state, and whether the C function returned 0. */
  datatype Ret = Ret(k: Core, ok: bool)

  const INIT_CHAN := Chan(false, 0, 0, 0, false, false, false, false, 80, 25)
  const INIT_HIST := Hist([], [], [], [], [], 0, [], [], 0, 0, false)
  const NO_KEYS := Keys([], [], [], Sha256)

  /** SshNew. */
  const INIT := Core(StVersion, KxIdle, false, [], [], [], false, false, NextAlgs(0, 0, Sha256, Sha256),
    None, CLEAR, CLEAR, NO_KEYS, [], 0, INIT_CHAN, Login(false, 0, []), 0, 0, INIT_HIST)

  // ---- sending ----

  function SendPacket(env: Env, k: Core, payload: seq<byte>): (r: Ret)
    ensures r.k.chan == k.chan && r.k.hist == k.hist.(sent := r.k.hist.sent)
    ensures r.k.inDir == k.inDir && (r.k.state == k.state || r.k.state.StClosed?)
  {
    if k.state.StClosed? || |payload| + 64 > MAX_PACKET then Ret(k, false)
    else
      var pad := Random(env, k.drawn, PadLen(k.outDir, |payload|));
      var wire := Seal(env, k.outDir, payload, pad);
      var k1 := k.(
        drawn := k.drawn + |pad|,
        outDir := AfterSeal(k.outDir, payload, pad),
        writes := k.writes + 1,
        hist := k.hist.(sent := k.hist.sent + [Sent(payload, pad, k.drawn, wire, k.outDir.epoch)]));
      if WriteOk(env, k.writes) then Ret(k1, true) else Ret(k1.(state := StClosed), false)
  }

  function DisconnectMsg(reason: uint32, msg: string): seq<byte> {
    [MSG_DISCONNECT] + PutU32(reason) + Str(Ascii(msg)) + Str([])
  }

  function Disconnect(env: Env, k: Core, reason: uint32, msg: string): (r: Core)
    ensures r.inDir == k.inDir && r.state.StClosed?
  {
    hide Seal;
    hide PadLen;
    if k.state.StClosed? then k
    else SendPacket(env, k, DisconnectMsg(reason, msg)).k.(state := StClosed)
  }

  function Fail(env: Env, k: Core, reason: uint32, msg: string): Ret {
    Ret(Disconnect(env, k, reason, msg), false)
  }

  predicate CanSendNow(k: Core) {
    k.state.StConn? && k.chan.open && !k.chan.closeSent && (k.kex.KxIdle? || k.kex.KxWaitNewKeys?)
  }

  // ---- key exchange ----

  function KexInitMsg(cookie: seq<byte>): seq<byte> {
    [MSG_KEXINIT] + cookie + KexBody(OUR_LISTS, PL_BUF - 17).data
  }

  function SendKexInit(env: Env, k: Core): Ret {
    var payload := KexInitMsg(Random(env, k.drawn, 16));
    SendPacket(env, k.(drawn := k.drawn + 16, serverKexInit := payload, kexInitSent := true), payload)
  }

  function FirstEntryOf(list: seq<byte>): seq<byte> {
    list[..CommaAt(list, 0)]
  }

  /** The code's rule for a guessed first packet: wrong unless the client's first method is the one chosen and its
      first host key type is ours. */
  predicate WrongGuess(l: KexLists, chosen: seq<byte>) {
    l.firstFollows != 0 && (FirstEntryOf(l.kex) != chosen || FirstEntryOf(l.hostKey) != Ascii("ssh-ed25519"))
  }

  function Negotiate(env: Env, k: Core): Ret {
    if |k.clientKexInit| < 17 then Fail(env, k, DISC_PROTOCOL_ERROR, "short KEXINIT")
    else
      match ParseKex(k.clientKexInit[17..])
      case None => Fail(env, k, DISC_PROTOCOL_ERROR, "bad KEXINIT")
      case Some(l) => NegotiateLists(env, k, l)
  }

  function NegotiateLists(env: Env, k: Core, l: KexLists): Ret {
    var kex := Pick(l.kex, OUR_LISTS.kex);
    if kex.None? then Fail(env, k, DISC_KEY_EXCHANGE_FAILED, "no common kex algorithm (need curve25519-sha256)")
    else
      var k1 := k.(ignoreNext := WrongGuess(l, kex.value));
      if Pick(l.hostKey, OUR_LISTS.hostKey).None? then
        Fail(env, k1, DISC_KEY_EXCHANGE_FAILED, "no common host key algorithm (need ssh-ed25519)")
      else NegotiateCiphers(env, k1, l)
  }

  function NegotiateCiphers(env: Env, k: Core, l: KexLists): Ret {
    var encIn := Pick(l.encCs, OUR_LISTS.encCs);
    if encIn.None? then Fail(env, k, DISC_KEY_EXCHANGE_FAILED, "no common cipher (need aes-ctr)")
    else
      var k1 := k.(next := k.next.(encIn := EncKeyLen(encIn.value)));
      var encOut := Pick(l.encSc, OUR_LISTS.encSc);
      if encOut.None? then Fail(env, k1, DISC_KEY_EXCHANGE_FAILED, "no common cipher (need aes-ctr)")
      else NegotiateMacs(env, k1.(next := k1.next.(encOut := EncKeyLen(encOut.value))), l)
  }

  function NegotiateMacs(env: Env, k: Core, l: KexLists): Ret {
    var macIn := Pick(l.macCs, OUR_LISTS.macCs);
    if macIn.None? then Fail(env, k, DISC_KEY_EXCHANGE_FAILED, "no common MAC (need hmac-sha2-256)")
    else
      var k1 := k.(next := k.next.(macIn := MacTypeOf(macIn.value)));
      var macOut := Pick(l.macSc, OUR_LISTS.macSc);
      if macOut.None? then Fail(env, k1, DISC_KEY_EXCHANGE_FAILED, "no common MAC (need hmac-sha2-256)")
      else
        var k2 := k1.(next := k1.next.(macOut := MacTypeOf(macOut.value)));
        if Pick(l.compCs, OUR_LISTS.compCs).None? || Pick(l.compSc, OUR_LISTS.compSc).None? then
          Fail(env, k2, DISC_KEY_EXCHANGE_FAILED, "compression not supported")
        else Ret(k2, true)
  }

  function OnKexInit(env: Env, k: Core, p: seq<byte>): Ret {
    if !k.kex.KxIdle? && !k.kex.KxWaitKexInit? then Fail(env, k, DISC_PROTOCOL_ERROR, "unexpected KEXINIT")
    else
      var k1 := k.(clientKexInit := p, hist := k.hist.(dropped := 0));
      var r := if k1.kexInitSent then Ret(k1, true) else SendKexInit(env, k1);
      if !r.ok then r
      else
        var n := Negotiate(env, r.k.(kexInitSent := false));
        if n.ok then Ret(n.k.(kex := KxWaitDh), true) else n
  }

  function KexReply(env: Env, qs: seq<byte>, h: seq<byte>): seq<byte> {
    [MSG_KEXDH_REPLY] + Str(HostKeyBlob(env)) + Str(qs) + Str(Str(Ascii("ssh-ed25519")) + Str(env.sign(h)))
  }

  function OnKexDhInit(env: Env, k: Core, p: seq<byte>): Ret
    requires p != []
  {
    if !k.kex.KxWaitDh? then Fail(env, k, DISC_PROTOCOL_ERROR, "unexpected KEXDH_INIT")
    else
      var (qc, r) := RStr(RInit(p[1..]));
      if r.err || |qc| != 32 then Fail(env, k, DISC_KEY_EXCHANGE_FAILED, "bad KEXDH_INIT")
      else
        var priv := Random(env, k.drawn, 32);
        var k1 := k.(drawn := k.drawn + 32);
        match DhShared(env, priv, qc)
        case None => Fail(env, k1, DISC_KEY_EXCHANGE_FAILED, "curve25519 failure")
        case Some(shared) => FinishKex(env, k1, qc, DhPublic(env, priv), shared)
  }

  function HashFor(env: Env, k: Core, qc: seq<byte>, qs: seq<byte>, shared: seq<byte>): Bytes32 {
    ExchangeHash(env, k.version, SERVER_VERSION, k.clientKexInit, k.serverKexInit, HostKeyBlob(env), qc, qs, shared)
  }

  function FinishKex(env: Env, k: Core, qc: seq<byte>, qs: seq<byte>, shared: seq<byte>): Ret {
    var h := HashFor(env, k, qc, qs, shared);
    var sid := if k.sid.Some? then k.sid.value else h;
    var k1 := k.(sid := Some(sid), hist := k.hist.(hashes := k.hist.hashes + [h]));
    var r1 := SendPacket(env, k1, KexReply(env, qs, h));
    if !r1.ok then r1
    else
      var r2 := SendPacket(env, r1.k, [MSG_NEWKEYS]);
      if !r2.ok then r2
      else
        var kMp := MpintOf(shared);
        var outKeys := CutKeys(env, kMp, h, sid, S2C, k.next.encOut, k.next.macOut);
        var inKeys := CutKeys(env, kMp, h, sid, C2S, k.next.encIn, k.next.macIn);
        Ret(SwitchOut(r2.k, outKeys, inKeys), true)
  }

  /** The outgoing direction changes keys right after our NEWKEYS; the incoming keys wait for the client's. */
  function SwitchOut(k: Core, outKeys: Keys, inKeys: Keys): Core {
    k.(outDir := Install(k.outDir, outKeys), pend := inKeys, kex := KxWaitNewKeys,
       hist := k.hist.(outKeys := k.hist.outKeys + [outKeys]))
  }

  function OnNewKeys(env: Env, k: Core): Ret {
    if !k.kex.KxWaitNewKeys? then Fail(env, k, DISC_PROTOCOL_ERROR, "unexpected NEWKEYS")
    else
      Ret(k.(inDir := Install(k.inDir, k.pend),
             pend := k.pend.(encKey := Zeros(|k.pend.encKey|), macKey := Zeros(|k.pend.macKey|)),
             kex := KxIdle,
             state := if k.state.StKex? then StAuth else k.state), true)
  }

  // ---- service and authentication ----

  function OnServiceRequest(env: Env, k: Core, p: seq<byte>): Ret
    requires p != []
  {
    if k.state.StVersion? || k.state.StKex? then Fail(env, k, DISC_PROTOCOL_ERROR, "service request before kex")
    else
      var (name, r) := RStr(RInit(p[1..]));
      if r.err || name != Ascii("ssh-userauth") then Fail(env, k, DISC_PROTOCOL_ERROR, "unknown service")
      else SendPacket(env, k, [MSG_SERVICE_ACCEPT] + Str(Ascii("ssh-userauth")))
  }

  function SendAuthFailure(env: Env, k: Core): Ret {
    SendPacket(env, k, [MSG_USERAUTH_FAILURE] + Str(Ascii("password")) + [0])
  }

  /** What the callback sees of a byte buffer: the part before the first NUL. */
  function CStr(s: seq<byte>): seq<byte> {
    if s == [] || s[0] == 0 then [] else [s[0]] + CStr(s[1..])
  }

  datatype AuthRequest = AuthRequest(user: seq<byte>, service: seq<byte>, method_: seq<byte>, rest: Cursor)

  function ParseAuth(p: seq<byte>): AuthRequest
    requires p != []
  {
    var (user, r1) := RStr(RInit(p[1..]));
    var (service, r2) := RStr(r1);
    var (m, r3) := RStr(r2);
    AuthRequest(user, service, m, r3)
  }

  function OnUserauth(env: Env, k: Core, p: seq<byte>): Ret
    requires p != []
  {
    if k.state.StConn? then Ret(k, true)
    else if !k.state.StAuth? then Fail(env, k, DISC_PROTOCOL_ERROR, "auth before kex")
    else
      var a := ParseAuth(p);
      if a.rest.err then Fail(env, k, DISC_PROTOCOL_ERROR, "bad USERAUTH_REQUEST")
      else if a.service != Ascii("ssh-connection") then Fail(env, k, DISC_PROTOCOL_ERROR, "unknown service")
      else
        var user := if |a.user| >= 64 then a.user[..63] else a.user;
        CheckPassword(env, k.(login := k.login.(user := user)), a)
  }

  function CheckPassword(env: Env, k: Core, a: AuthRequest): Ret {
    if a.method_ != Ascii("password") then SendAuthFailure(env, k)
    else
      var (change, r1) := RByte(a.rest);
      if change != 0 then SendAuthFailure(env, k)
      else
        var (pass, r2) := RStr(r1);
        if r2.err || |pass| >= 256 then SendAuthFailure(env, k)
        else Authorize(env, k, CStr(pass))
  }

  function Authorize(env: Env, k: Core, pass: seq<byte>): Ret {
    var yes := Consents(env, k.login.tries, CStr(k.login.user), pass);
    var k1 := k.(hist := k.hist.(auths := k.hist.auths + [yes]));
    if yes then
      SendPacket(env, k1.(login := k1.login.(authenticated := true), state := StConn), [MSG_USERAUTH_SUCCESS])
    else
      var k2 := k1.(login := k1.login.(tries := k1.login.tries + 1));
      if k2.login.tries >= MAX_AUTH_TRIES then Fail(env, k2, DISC_NO_MORE_AUTH, "too many failed attempts")
      else SendAuthFailure(env, k2)
  }

  // ---- connection layer ----

  function OnGlobalRequest(env: Env, k: Core, p: seq<byte>): Ret
    requires p != []
  {
    var (_, r1) := RStr(RInit(p[1..]));
    var (wantReply, r2) := RByte(r1);
    if !r2.err && wantReply != 0 then SendPacket(env, k, [MSG_REQUEST_FAILURE]) else Ret(k, true)
  }

  function OnChannelOpen(env: Env, k: Core, p: seq<byte>): Ret
    requires p != []
  {
    if !k.state.StConn? then Fail(env, k, DISC_PROTOCOL_ERROR, "channel before auth")
    else
      var (kind, r1) := RStr(RInit(p[1..]));
      var (sender, r2) := RU32(r1);
      var (window, r3) := RU32(r2);
      var (maxPkt, r4) := RU32(r3);
      if r4.err then Fail(env, k, DISC_PROTOCOL_ERROR, "bad CHANNEL_OPEN")
      else if kind == Ascii("session") && !k.chan.open then
        SendPacket(env, OpenChannel(k, sender, window, maxPkt),
          [MSG_CHANNEL_OPEN_CONFIRM] + PutU32(sender) + PutU32(0) + PutU32(LOCAL_WINDOW) + PutU32(LOCAL_MAXPKT))
      else
        var why := if k.chan.open then "only one session per connection" else "unsupported channel type";
        SendPacket(env, k,
          [MSG_CHANNEL_OPEN_FAILURE] + PutU32(sender) + PutU32(if k.chan.open then 4 else 3) + Str(Ascii(why)) + Str([]))
  }

  function OpenChannel(k: Core, sender: uint32, window: uint32, maxPkt: uint32): Core {
    k.(chan := k.chan.(open := true, remote := sender, window := window, maxPkt := maxPkt,
                       closeSent := false, closeRecv := false, remoteEof := false),
       hist := k.hist.(granted := window, wrapped := false))
  }

  function SendChannelReply(env: Env, k: Core, msg: byte): Ret {
    SendPacket(env, k, [msg] + PutU32(k.chan.remote))
  }

  function Resize(c: Chan, cols: uint32, rows: uint32): Chan {
    c.(cols := if 0 < cols < 1000 then cols else c.cols, rows := if 0 < rows < 1000 then rows else c.rows)
  }

  /** The channel after a request of some kind, and whether the request is granted. */
  function RequestEffect(c: Chan, kind: seq<byte>, r: Cursor): (Chan, bool) {
    if kind == Ascii("pty-req") then
      var (_, r1) := RStr(r);
      var (cols, r2) := RU32(r1);
      var (rows, r3) := RU32(r2);
      if r3.err then (c, false) else (Resize(c, cols, rows), true)
    else if kind == Ascii("shell") then (c.(shellReady := true), true)
    else if kind == Ascii("window-change") then
      var (cols, r1) := RU32(r);
      var (rows, r2) := RU32(r1);
      (if r2.err then c else Resize(c, cols, rows), true)
    else (c, kind == Ascii("env"))
  }

  function OnChannelRequest(env: Env, k: Core, p: seq<byte>): Ret
    requires p != []
  {
    if !k.state.StConn? then Fail(env, k, DISC_PROTOCOL_ERROR, "channel before auth")
    else
      var (recipient, r1) := RU32(RInit(p[1..]));
      var (kind, r2) := RStr(r1);
      var (wantReply, r3) := RByte(r2);
      if r3.err || recipient != 0 || !k.chan.open then Fail(env, k, DISC_PROTOCOL_ERROR, "bad CHANNEL_REQUEST")
      else
        var (chan, granted) := RequestEffect(k.chan, kind, r3);
        var k1 := k.(chan := chan);
        if wantReply != 0 then SendChannelReply(env, k1, if granted then MSG_CHANNEL_SUCCESS else MSG_CHANNEL_FAILURE)
        else Ret(k1, true)
  }

  /** RingPush: what fits is stored, the rest is dropped without a word. */
  function Push(k: Core, d: seq<byte>): Core {
    var room := if |k.ring| <= RING_SIZE - 1 then RING_SIZE - 1 - |k.ring| else 0;
    var n := if |d| <= room then |d| else room;
    k.(ring := k.ring + d[..n],
       hist := k.hist.(dataIn := k.hist.dataIn + d, lost := k.hist.lost + (|d| - n)))
  }

  function OnChannelData(env: Env, k: Core, p: seq<byte>): Ret
    requires p != []
  {
    var (recipient, r1) := RU32(RInit(p[1..]));
    if recipient != 0 || !k.chan.open then Fail(env, k, DISC_PROTOCOL_ERROR, "bad channel")
    else
      var (d, r2) := RStr(r1);
      if r2.err then Fail(env, k, DISC_PROTOCOL_ERROR, "bad CHANNEL_DATA")
      else Ret(Push(k, d), true)
  }

  function OnWindowAdjust(k: Core, p: seq<byte>): Ret
    requires p != []
  {
    var (_, r1) := RU32(RInit(p[1..]));
    var (add, r2) := RU32(r1);
    if r2.err then Ret(k, true)
    else
      Ret(k.(chan := k.chan.(window := Low32(k.chan.window + add)),
             hist := k.hist.(granted := k.hist.granted + add,
                             wrapped := k.hist.wrapped || k.chan.window + add >= TWO32)), true)
  }

  function OnChannelClose(env: Env, k: Core): Ret {
    var k1 := k.(chan := k.chan.(closeRecv := true));
    if k1.chan.open && !k1.chan.closeSent then
      Ret(SendChannelReply(env, k1.(chan := k1.chan.(closeSent := true)), MSG_CHANNEL_CLOSE).k, true)
    else Ret(k1, true)
  }

  function OnOther(env: Env, k: Core): Ret {
    SendPacket(env, k, [MSG_UNIMPLEMENTED] + PutU32(Low32(k.inDir.seqNo - 1)))
  }

  // ---- dispatch ----

  predicate GuessDropped(k: Core, msg: byte) {
    k.ignoreNext && 30 <= msg <= 49
  }

  function HandlePacket(env: Env, k: Core, p: seq<byte>): Ret {
    if p == [] then Fail(env, k, DISC_PROTOCOL_ERROR, "empty payload")
    else if GuessDropped(k, p[0]) then
      Ret(k.(ignoreNext := false, hist := k.hist.(dropped := k.hist.dropped + 1)), true)
    else if k.state.StVersion? then Fail(env, k, DISC_PROTOCOL_ERROR, "packet before version")
    else if p[0] < 50 then HandleTransport(env, k, p)
    else HandleService(env, k, p)
  }

  function HandleTransport(env: Env, k: Core, p: seq<byte>): Ret
    requires p != []
  {
    var msg := p[0];
    if msg == MSG_DISCONNECT then Ret(k.(state := StClosed), false)
    else if 2 <= msg <= 4 || msg == 7 then Ret(k, true)
    else if msg == MSG_KEXINIT then OnKexInit(env, k, p)
    else if msg == MSG_KEXDH_INIT then OnKexDhInit(env, k, p)
    else if msg == MSG_NEWKEYS then OnNewKeys(env, k)
    else if msg == MSG_SERVICE_REQUEST then OnServiceRequest(env, k, p)
    else OnOther(env, k)
  }

  function HandleService(env: Env, k: Core, p: seq<byte>): Ret
    requires p != []
  {
    var msg := p[0];
    if msg == MSG_USERAUTH_REQUEST then OnUserauth(env, k, p)
    else if msg == MSG_GLOBAL_REQUEST then OnGlobalRequest(env, k, p)
    else if msg == MSG_CHANNEL_OPEN then OnChannelOpen(env, k, p)
    else if msg == MSG_CHANNEL_REQUEST then OnChannelRequest(env, k, p)
    else if msg == MSG_CHANNEL_DATA then OnChannelData(env, k, p)
    else if msg == MSG_EXTENDED_DATA then Ret(k, true)
    else if msg == MSG_WINDOW_ADJUST then OnWindowAdjust(k, p)
    else if msg == MSG_CHANNEL_EOF then Ret(k.(chan := k.chan.(remoteEof := true)), true)
    else if msg == MSG_CHANNEL_CLOSE then OnChannelClose(env, k)
    else OnOther(env, k)
  }

  /** One payload out of the record layer. */
  function Deliver(env: Env, k: Core, p: seq<byte>): Ret {
    HandlePacket(env, k.(hist := k.hist.(handled := k.hist.handled + [p])), p)
  }

  // ---- the calls of the API that touch the session ----

  /** SshAccept's version line. */
  function SendVersion(env: Env, k: Core): (r: Core)
    ensures r.inDir == k.inDir && (r.state == k.state || r.state.StClosed?)
  {
    if k.versionSent then k
    else if WriteOk(env, k.writes) then k.(versionSent := true, writes := k.writes + 1)
    else k.(state := StClosed, writes := k.writes + 1)
  }

  function WindowAdjustMsg(k: Core): seq<byte> {
    [MSG_WINDOW_ADJUST] + PutU32(k.chan.remote) + PutU32(k.consumed)
  }

  function Taken(k: Core, max: nat): nat {
    if max <= |k.ring| then max else |k.ring|
  }

  function TakeRing(k: Core, n: nat): Core
    requires n <= |k.ring|
  {
    k.(ring := k.ring[n..], consumed := Low32(k.consumed + n),
       hist := k.hist.(dataRead := k.hist.dataRead + k.ring[..n]))
  }

  /** SshRead after its ProcessInput. */
  function ReadRing(env: Env, k: Core, max: nat): (r: Core)
    ensures r.inDir == k.inDir && (r.state == k.state || r.state.StClosed?)
  {
    hide SendPacket;
    if k.ring == [] then k
    else
      var k1 := TakeRing(k, Taken(k, max));
      if k1.consumed >= LOCAL_WINDOW / 2 && CanSendNow(k1) then
        var r := SendPacket(env, k1, WindowAdjustMsg(k1));
        if r.ok then r.k.(consumed := 0) else r.k
      else k1
  }

  function Min(a: nat, b: nat): (r: nat)
    ensures r <= a && r <= b && (r == a || r == b)
  {
    if a <= b then a else b
  }

  predicate MayWrite(k: Core) {
    CanSendNow(k) && !k.chan.closeRecv && k.chan.window != 0
  }

  function ChunkLen(k: Core, len: nat): (n: nat)
    ensures n <= len && n <= k.chan.window && n <= k.chan.maxPkt && n <= DATA_CHUNK
  {
    Min(Min(len, k.chan.window), Min(k.chan.maxPkt, DATA_CHUNK))
  }

  function DataMsg(k: Core, d: seq<byte>): seq<byte> {
    [MSG_CHANNEL_DATA] + PutU32(k.chan.remote) + Str(d)
  }

  /** One round of SshWrite once it may send: the state, and how much went out (nothing when the call fails). */
  function WriteChunk(env: Env, k: Core, buf: seq<byte>): (r: Ret)
    ensures r.k.inDir == k.inDir && (r.k.state == k.state || r.k.state.StClosed?)
  {
    hide SendPacket;
    if !MayWrite(k) then Ret(k, false)
    else
      var n := ChunkLen(k, |buf|);
      var r := SendPacket(env, k, DataMsg(k, buf[..n]));
      if r.ok then Ret(r.k.(chan := r.k.chan.(window := r.k.chan.window - n)), true) else r
  }

  predicate ClosesChannel(k: Core) {
    k.state.StConn? && k.chan.open && !k.chan.closeSent
  }

  /** SshClose up to its wait: exit status, end of file, close. */
  function CloseChannel(env: Env, k: Core, exitStatus: uint32): (r: Core)
    ensures r.inDir == k.inDir && (r.state == k.state || r.state.StClosed?)
  {
    hide SendPacket;
    if !ClosesChannel(k) then k
    else
      var k1 := SendPacket(env, k, [MSG_CHANNEL_REQUEST] + PutU32(k.chan.remote) + Str(Ascii("exit-status")) + [0] + PutU32(exitStatus)).k;
      var k2 := SendChannelReply(env, k1, MSG_CHANNEL_EOF).k;
      var k3 := SendChannelReply(env, k2, MSG_CHANNEL_CLOSE).k;
      k3.(chan := k3.chan.(closeSent := true))
  }
}
