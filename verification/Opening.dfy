/** An ordinary session exists: an honest client's bytes take a fresh connection through the version line, the first key
    exchange, the login and the channel to a granted shell, and from there into the dead end. */
module Opening {
  import opened Bytes
  import opened Wire
  import opened Algorithms
  import opened Environment
  import opened RecordLayer
  import opened Session
  import opened Connection
  import opened Runs
  import opened SessionTheorems
  import opened Fragmentation
  import opened PeerStream
  import opened Starvation
  import K = KexInvariants
  import HC = HonestClient
  import D = Dialogue

  // ---- what the client says ----

  const CLIENT_LINE := Ascii("SSH-2.0-client") + [LF]

  function ServiceRequest(): (p: seq<byte>)
    ensures p != []
  {
    Message(5, [IStr(Ascii("ssh-userauth"))])
  }

  function PasswordItems(user: seq<byte>, pass: seq<byte>): seq<Item> {
    [IStr(user), IStr(Ascii("ssh-connection")), IStr(Ascii("password")), IByte(0), IStr(pass)]
  }

  function PasswordRequest(user: seq<byte>, pass: seq<byte>): (p: seq<byte>)
    ensures p != []
  {
    Message(50, PasswordItems(user, pass))
  }

  function OpenItems(window: uint32, maxPkt: uint32): seq<Item> {
    [IStr(Ascii("session")), IU32(0), IU32(window), IU32(maxPkt)]
  }

  function SessionOpen(window: uint32, maxPkt: uint32): (p: seq<byte>)
    ensures p != []
  {
    Message(90, OpenItems(window, maxPkt))
  }

  const SHELL_ITEMS := [IU32(0), IStr(Ascii("shell")), IByte(1)]

  function ShellRequest(): (p: seq<byte>)
    ensures p != []
  {
    Message(98, SHELL_ITEMS)
  }

  /** Every read of what was said finds what was written, with no error on the way. */
  lemma MessageIsRead(msg: byte, items: seq<Item>) returns (at: seq<nat>)
    requires SizeOf(items) <= MAX_PAYLOAD - 1
    ensures var p := Message(msg, items);
      p[0] == msg && |p| <= MAX_PAYLOAD && ReadsBack(p[1..], items, at) && at[0] == 0
  {
    hide WAll;
    hide ReadsBack;
    WAllSize(WState([], MAX_PAYLOAD - 1, false), items);
    at := Boundaries(WState([], MAX_PAYLOAD - 1, false), items);
    WAllEncodes(WState([], MAX_PAYLOAD - 1, false), items);
    assert [] + Encoded(items) == Encoded(items);
    assert Message(msg, items)[1..] == WAll(WState([], MAX_PAYLOAD - 1, false), items).data;
  }

  // ---- what the server makes of it ----

  /** What the steps from login to shell leave alone. */
  predicate Calm(k: Core, k': Core) {
    k'.ring == k.ring && k'.consumed == k.consumed && k'.kex == k.kex && k'.hist.dataIn == k.hist.dataIn
  }

  lemma SendCalm(env: Env, k: Core, payload: seq<byte>)
    requires Willing(env) && !k.state.StClosed? && |payload| <= MAX_PAYLOAD
    ensures var r := SendPacket(env, k, payload);
      r.ok && r.k.state == k.state && r.k.chan == k.chan && Calm(k, r.k)
  {
    hide SendPacket;
    SendSucceeds(env, k, payload);
  }

  /** The callback admits whoever says this, whatever came before. */
  ghost predicate Consenting(env: Env, name: seq<byte>, word: seq<byte>) {
    forall n :: Consents(env, n, name, word)
  }

  lemma ServiceStarts(env: Env, k: Core)
    requires Willing(env) && k.state.StAuth?
    ensures var r := Deliver(env, k, ServiceRequest());
      r.ok && r.k.state == k.state && r.k.chan == k.chan && Calm(k, r.k)
  {
    hide RStr;
    hide SendPacket;
    hide Willing;
    hide Message;
    var items := [IStr(Ascii("ssh-userauth"))];
    var at := MessageIsRead(MSG_SERVICE_REQUEST, items);
    var p := ServiceRequest();
    assert RItem(Cursor(p[1..], at[0], false), items[0]) == (Normal(items[0]), Cursor(p[1..], at[1], false));
    var k1 := k.(hist := k.hist.(handled := k.hist.handled + [p]));
    SendCalm(env, k1, [MSG_SERVICE_ACCEPT] + Str(Ascii("ssh-userauth")));
    assert Deliver(env, k, p) == OnServiceRequest(env, k1, p);
  }

  /** The request fits one packet, and the password the server's buffer. */
  predicate FitsPacket(user: seq<byte>, pass: seq<byte>) {
    SizeOf(PasswordItems(user, pass)) < MAX_PAYLOAD && |pass| < 256
  }

  lemma PasswordParsed(user: seq<byte>, pass: seq<byte>)
    requires FitsPacket(user, pass)
    ensures var p := PasswordRequest(user, pass);
      p != [] && p[0] == MSG_USERAUTH_REQUEST && |p| <= MAX_PAYLOAD &&
      var a := ParseAuth(p);
      && !a.rest.err && a.user == user && a.service == Ascii("ssh-connection") && a.method_ == Ascii("password")
      && RByte(a.rest).0 == 0
      && RStr(RByte(a.rest).1).0 == pass && !RStr(RByte(a.rest).1).1.err
  {
    hide RStr;
    hide RByte;
    hide Message;
    hide Ascii;
    var items := PasswordItems(user, pass);
    var at := MessageIsRead(MSG_USERAUTH_REQUEST, items);
    var d := PasswordRequest(user, pass)[1..];
    assert RItem(Cursor(d, at[0], false), items[0]) == (Normal(items[0]), Cursor(d, at[1], false));
    assert RItem(Cursor(d, at[1], false), items[1]) == (Normal(items[1]), Cursor(d, at[2], false));
    assert RItem(Cursor(d, at[2], false), items[2]) == (Normal(items[2]), Cursor(d, at[3], false));
    assert RItem(Cursor(d, at[3], false), items[3]) == (Normal(items[3]), Cursor(d, at[4], false));
    assert RItem(Cursor(d, at[4], false), items[4]) == (Normal(items[4]), Cursor(d, at[5], false));
  }

  lemma SizeOfFive(items: seq<Item>)
    requires |items| <= 5 && forall i :: 0 <= i < |items| ==> ItemSize(items[i]) <= 1004
    ensures SizeOf(items) <= 5 * 1004
  {
    hide ItemSize;
    SizeOfMany(items, 1004);
  }

  lemma {:induction false} SizeOfMany(items: seq<Item>, each: nat)
    requires forall i :: 0 <= i < |items| ==> ItemSize(items[i]) <= each
    ensures SizeOf(items) <= |items| * each
    decreases |items|
  {
    hide ItemSize;
    if items != [] {
      SizeOfMany(items[1..], each);
    }
  }

  lemma LogsIn(env: Env, k: Core, user: seq<byte>, pass: seq<byte>)
    requires Willing(env) && Consenting(env, CStr(D.Kept(user)), CStr(pass)) && FitsPacket(user, pass) && k.state.StAuth?
    ensures var r := Deliver(env, k, PasswordRequest(user, pass));
      r.ok && r.k.state.StConn? && r.k.chan == k.chan && Calm(k, r.k)
  {
    hide SendPacket;
    hide ParseAuth;
    hide PasswordRequest;
    hide RStr;
    hide RByte;
    hide Consents;
    hide CStr;
    hide HandleTransport;
    var p := PasswordRequest(user, pass);
    PasswordParsed(user, pass);
    var k1 := k.(hist := k.hist.(handled := k.hist.handled + [p]));
    var named := D.Kept(user);
    var k2 := k1.(login := k1.login.(user := named), hist := k1.hist.(auths := k1.hist.auths + [true]));
    SendCalm(env, k2.(login := k2.login.(authenticated := true), state := StConn), [MSG_USERAUTH_SUCCESS]);
    assert Consents(env, k1.login.tries, CStr(named), CStr(pass));
    assert Deliver(env, k, p) == OnUserauth(env, k1, p);
    assert OnUserauth(env, k1, p) == CheckPassword(env, k1.(login := k1.login.(user := named)), ParseAuth(p));
    assert CheckPassword(env, k1.(login := k1.login.(user := named)), ParseAuth(p))
      == Authorize(env, k1.(login := k1.login.(user := named)), CStr(pass));
  }

  lemma OpenParsed(window: uint32, maxPkt: uint32)
    ensures var p := SessionOpen(window, maxPkt);
      p != [] && p[0] == MSG_CHANNEL_OPEN && |p| <= MAX_PAYLOAD &&
      var (kind, r1) := RStr(RInit(p[1..]));
      var (sender, r2) := RU32(r1);
      var (w, r3) := RU32(r2);
      var (m, r4) := RU32(r3);
      !r4.err && kind == Ascii("session") && sender == 0 && w == window && m == maxPkt
  {
    hide RStr;
    hide RU32;
    hide Message;
    var items := OpenItems(window, maxPkt);
    SizeOfFive(items);
    var at := MessageIsRead(MSG_CHANNEL_OPEN, items);
    var d := SessionOpen(window, maxPkt)[1..];
    assert RItem(Cursor(d, at[0], false), items[0]) == (Normal(items[0]), Cursor(d, at[1], false));
    assert RItem(Cursor(d, at[1], false), items[1]) == (Normal(items[1]), Cursor(d, at[2], false));
    assert RItem(Cursor(d, at[2], false), items[2]) == (Normal(items[2]), Cursor(d, at[3], false));
    assert RItem(Cursor(d, at[3], false), items[3]) == (Normal(items[3]), Cursor(d, at[4], false));
  }

  lemma ChannelOpens(env: Env, k: Core, window: uint32, maxPkt: uint32)
    requires Willing(env) && k.state.StConn? && !k.chan.open
    ensures var r := Deliver(env, k, SessionOpen(window, maxPkt));
      && r.ok && r.k.state.StConn? && Calm(k, r.k) && r.k.chan.open && !r.k.chan.closeSent
  {
    hide SendPacket;
    hide SessionOpen;
    hide RStr;
    hide RU32;
    hide PutU32;
    hide Ascii;
    hide HandleTransport;
    var p := SessionOpen(window, maxPkt);
    OpenParsed(window, maxPkt);
    var k1 := k.(hist := k.hist.(handled := k.hist.handled + [p]));
    SendCalm(env, OpenChannel(k1, 0, window, maxPkt),
      [MSG_CHANNEL_OPEN_CONFIRM] + PutU32(0) + PutU32(0) + PutU32(LOCAL_WINDOW) + PutU32(LOCAL_MAXPKT));
    assert Deliver(env, k, p) == OnChannelOpen(env, k1, p);
  }

  lemma ShellParsed()
    ensures var p := ShellRequest();
      p != [] && p[0] == MSG_CHANNEL_REQUEST && |p| <= MAX_PAYLOAD &&
      var (recipient, r1) := RU32(RInit(p[1..]));
      var (kind, r2) := RStr(r1);
      var (wantReply, r3) := RByte(r2);
      !r3.err && recipient == 0 && kind == Ascii("shell") && wantReply == 1
  {
    hide RStr;
    hide RU32;
    hide RByte;
    hide Message;
    var items := SHELL_ITEMS;
    SizeOfFive(items);
    var at := MessageIsRead(MSG_CHANNEL_REQUEST, items);
    var d := ShellRequest()[1..];
    assert RItem(Cursor(d, at[0], false), items[0]) == (Normal(items[0]), Cursor(d, at[1], false));
    assert RItem(Cursor(d, at[1], false), items[1]) == (Normal(items[1]), Cursor(d, at[2], false));
    assert RItem(Cursor(d, at[2], false), items[2]) == (Normal(items[2]), Cursor(d, at[3], false));
  }

  lemma ShellGranted(env: Env, k: Core)
    requires Willing(env) && k.state.StConn? && k.chan.open
    ensures var r := Deliver(env, k, ShellRequest());
      && r.ok && r.k.state.StConn? && Calm(k, r.k) && r.k.chan == k.chan.(shellReady := true)
  {
    hide SendPacket;
    hide ShellRequest;
    hide RStr;
    hide RU32;
    hide RByte;
    hide PutU32;
    hide HandleTransport;
    var p := ShellRequest();
    ShellParsed();
    var k1 := k.(hist := k.hist.(handled := k.hist.handled + [p]));
    SendCalm(env, k1.(chan := k1.chan.(shellReady := true)), [MSG_CHANNEL_SUCCESS] + PutU32(k1.chan.remote));
    assert Ascii("shell")[0] != Ascii("pty-req")[0];
    assert Deliver(env, k, p) == OnChannelRequest(env, k1, p);
  }

  // ---- one packet of the client on the wire ----

  ghost predicate NoData(env: Env, events: seq<Event>) {
    forall n :: 0 <= n <= |events| ==> Run(env, events[..n]).core.hist.dataIn == []
  }

  /** Past the version, open, with nothing half received. */
  predicate Listening(c: Conn) {
    c.buf == [] && !c.haveLen && !c.core.state.StClosed? && !c.core.state.StVersion?
  }

  function PadFor(d: Dir, p: seq<byte>): seq<byte> {
    Zeros(PadLen(d, |p|))
  }

  /** The bytes of the client's next packet, under the keys its direction now has. */
  function OnWire(env: Env, events: seq<Event>, p: seq<byte>): Event {
    var d := Run(env, events).core.inDir;
    Input(Seal(env, d, p, PadFor(d, p)))
  }

  /** The server when it has opened that packet. */
  function Opened(env: Env, events: seq<Event>, p: seq<byte>): Core {
    var k := Run(env, events).core;
    k.(inDir := AfterSeal(k.inDir, p, PadFor(k.inDir, p)))
  }

  lemma OneMoreRun(env: Env, events: seq<Event>, e: Event)
    requires NoData(env, events) && Apply(env, Run(env, events), e).core.hist.dataIn == []
    ensures var more := events + [e];
      Run(env, more) == Apply(env, Run(env, events), e) && NoData(env, more)
  {
    hide Apply;
    var more := events + [e];
    assert more[..|events|] == events && more[..|more|] == more;
    forall n | 0 <= n <= |more|
      ensures Run(env, more[..n]).core.hist.dataIn == []
    {
      assert n <= |events| ==> more[..n] == events[..n];
    }
  }

  lemma Fed(env: Env, c: Conn, p: seq<byte>)
    requires Listening(c) && Good(env, c.core) && |p| <= MAX_PAYLOAD
    requires var r := Deliver(env, c.core.(inDir := AfterSeal(c.core.inDir, p, PadFor(c.core.inDir, p))), p);
      r.ok && !r.k.state.StClosed?
    ensures var r := Deliver(env, c.core.(inDir := AfterSeal(c.core.inDir, p, PadFor(c.core.inDir, p))), p);
      ConnOk(c) && Listening(Feed(env, c, Seal(env, c.core.inDir, p, PadFor(c.core.inDir, p))))
      && Feed(env, c, Seal(env, c.core.inDir, p, PadFor(c.core.inDir, p))).core == r.k
  {
    hide Deliver;
    hide Good;
    hide Seal;
    hide Sendable;
    hide PadLen;
    hide AfterSeal;
    hide Drain;
    hide TryOne;
    var k, pad := c.core, PadFor(c.core.inDir, p);
    var wire := Seal(env, k.inDir, p, pad);
    PaddedIsSendable(k.inDir, p, pad);
    HeardStep(env, k, Msg(p, pad), [], [k.pend], c.pktLen);
    assert wire + [] == wire == [] + wire;
    assert c.(buf := [] + wire) == Conn(k, wire + [], false, c.pktLen);
    var r := Hear(env, k, AfterSeal(k.inDir, p, pad), p);
    DrainStep(env, Conn(k, wire, false, c.pktLen));
    NothingHeard(env, r.k, [], 1 + |p| + |pad|);
  }

  lemma Hears(env: Env, events: seq<Event>, p: seq<byte>) returns (more: seq<Event>)
    requires NoData(env, events) && Listening(Run(env, events)) && |p| <= MAX_PAYLOAD
    requires var r := Deliver(env, Opened(env, events, p), p);
      r.ok && !r.k.state.StClosed? && r.k.hist.dataIn == []
    ensures more == events + [OnWire(env, events, p)] && NoData(env, more) && Listening(Run(env, more))
    ensures Run(env, more).core == Deliver(env, Opened(env, events, p), p).k
  {
    hide Run;
    hide Deliver;
    hide Good;
    hide Seal;
    hide PadFor;
    hide AfterSeal;
    hide Feed;
    hide NoData;
    RunOk(env, events);
    Fed(env, Run(env, events), p);
    more := events + [OnWire(env, events, p)];
    OneMoreRun(env, events, OnWire(env, events, p));
  }

  // ---- the opening ----

  lemma LineRead()
    ensures LfAt(CLIENT_LINE, 0) == |CLIENT_LINE| - 1 && CLIENT_LINE != []
    ensures var line := LineOf(CLIENT_LINE, |CLIENT_LINE| - 1); IsSshLine(line) && IsSsh2(line)
  {
    var a := Ascii("SSH-2.0-client");
    assert CLIENT_LINE == a + [LF] && |a| == 14;
    assert forall i :: 0 <= i < 14 ==> a[i] != LF;
    LfIs(CLIENT_LINE, 14);
    assert CLIENT_LINE[13] == a[13];
    assert LineOf(CLIENT_LINE, 14) == a;
    assert a[..4] == Ascii("SSH-") && a[..7] == Ascii("SSH-2.0");
  }

  /** Both version lines are out. */
  lemma Greeted(env: Env) returns (events: seq<Event>)
    requires Willing(env)
    ensures events == [VersionOut, Input(CLIENT_LINE)] && NoData(env, events) && Listening(Run(env, events))
    ensures var k := Run(env, events).core;
      k.state.StKex? && k.kex.KxWaitKexInit? && k.ring == [] && k.consumed == 0 && !k.chan.open
  {
    hide Feed;
    hide TakeVersion;
    hide LfAt;
    hide LineOf;
    hide IsSshLine;
    hide IsSsh2;
    hide Good;
    var c := FRESH.(core := SendVersion(env, INIT));
    assert c.core == INIT.(versionSent := true, writes := 1);
    assert Run(env, []) == FRESH;
    OneMoreRun(env, [], VersionOut);
    assert [] + [VersionOut] == [VersionOut];
    RunOk(env, [VersionOut]);
    LineRead();
    LineTaken(env, c, CLIENT_LINE);
    VersionStarts(env, c.core, LineOf(CLIENT_LINE, |CLIENT_LINE| - 1));
    OneMoreRun(env, [VersionOut], Input(CLIENT_LINE));
    events := [VersionOut, Input(CLIENT_LINE)];
    assert [VersionOut] + [Input(CLIENT_LINE)] == events;
  }

  lemma VersionStarts(env: Env, k: Core, line: seq<byte>)
    requires Willing(env) && k.state.StVersion? && !k.kexInitSent
    ensures var r := TakeVersion(env, k, line);
      && r.ok && r.k.state.StKex? && r.k.kex.KxWaitKexInit? && r.k.ring == k.ring && r.k.consumed == k.consumed
      && r.k.chan == k.chan && r.k.hist.dataIn == k.hist.dataIn
  {
    hide SendPacket;
    hide KexInitMsg;
    var k1 := k.(version := line, state := StKex, kex := KxWaitKexInit);
    var mine := KexInitMsg(Random(env, k1.drawn, 16));
    K.OurKexInit(Random(env, k1.drawn, 16));
    SendSucceeds(env, k1.(drawn := k1.drawn + 16, serverKexInit := mine, kexInitSent := true), mine);
  }

  /** Nothing has come over a channel yet. */
  predicate Untouched(k: Core) {
    k.ring == [] && k.consumed == 0 && k.hist.dataIn == []
  }

  /** The first key exchange is done. */
  lemma Keyed(env: Env, cookie: seq<byte>, secret: Bytes32) returns (events: seq<Event>)
    requires Willing(env) && |cookie| == 16
    ensures NoData(env, events) && Listening(Run(env, events))
    ensures var k := Run(env, events).core;
      k.state.StAuth? && k.kex.KxIdle? && Untouched(k) && !k.chan.open
  {
    hide Run;
    hide Deliver;
    hide KexInitMsg;
    hide HC.DhInit;
    hide Willing;
    hide NoData;
    hide OnWire;
    hide AfterSeal;
    hide PadFor;
    var e0 := Greeted(env);
    NowNone(env, e0);
    Sizes(env, cookie, secret);
    ExchangeOpens(env, Opened(env, e0, KexInitMsg(cookie)), cookie);
    var e1 := Hears(env, e0, KexInitMsg(cookie));
    ExchangeEnds(env, Opened(env, e1, HC.DhInit(env, secret)), secret);
    var e2 := Hears(env, e1, HC.DhInit(env, secret));
    NewKeysTaken(env, Opened(env, e2, [MSG_NEWKEYS]));
    events := Hears(env, e2, [MSG_NEWKEYS]);
  }

  lemma NowNone(env: Env, events: seq<Event>)
    requires NoData(env, events)
    ensures Run(env, events).core.hist.dataIn == []
  {
    hide Run;
    assert events[..|events|] == events;
  }

  lemma Sizes(env: Env, cookie: seq<byte>, secret: Bytes32)
    requires |cookie| == 16
    ensures |KexInitMsg(cookie)| <= MAX_PAYLOAD && |HC.DhInit(env, secret)| <= MAX_PAYLOAD
    ensures |ServiceRequest()| <= MAX_PAYLOAD
  {
    hide KexInitMsg;
    K.OurKexInit(cookie);
    EncodedOne(IStr(DhPublic(env, secret)));
    var at := MessageIsRead(MSG_SERVICE_REQUEST, [IStr(Ascii("ssh-userauth"))]);
  }

  /** The way in: if the socket takes everything, X25519 refuses nothing and the callback consents, an honest client's bytes
      lead from a fresh connection to a granted shell on an open channel, at an ordinary moment of a session. */
  lemma SessionOpens(env: Env, cookie: seq<byte>, secret: Bytes32, user: seq<byte>, pass: seq<byte>, window: uint32, maxPkt: uint32)
    returns (events: seq<Event>)
    requires Willing(env) && |cookie| == 16
    requires Consenting(env, CStr(D.Kept(user)), CStr(pass)) && FitsPacket(user, pass)
    ensures RespectsWindow(env, events)
    ensures var k := Run(env, events).core;
      AtEase(k) && k.chan.shellReady && Untouched(k)
  {
    hide Run;
    hide Deliver;
    hide ServiceRequest;
    hide PasswordRequest;
    hide SessionOpen;
    hide ShellRequest;
    hide Willing;
    hide Consenting;
    hide NoData;
    hide OnWire;
    hide AfterSeal;
    hide PadFor;
    hide D.Kept;
    var e0 := Keyed(env, cookie, secret);
    NowNone(env, e0);
    Sizes(env, cookie, secret);
    ServiceStarts(env, Opened(env, e0, ServiceRequest()));
    var e1 := Hears(env, e0, ServiceRequest());
    PasswordParsed(user, pass);
    LogsIn(env, Opened(env, e1, PasswordRequest(user, pass)), user, pass);
    var e2 := Hears(env, e1, PasswordRequest(user, pass));
    OpenParsed(window, maxPkt);
    ChannelOpens(env, Opened(env, e2, SessionOpen(window, maxPkt)), window, maxPkt);
    var e3 := Hears(env, e2, SessionOpen(window, maxPkt));
    ShellParsed();
    ShellGranted(env, Opened(env, e3, ShellRequest()));
    events := Hears(env, e3, ShellRequest());
    NoDataRespects(env, events);
  }

  lemma NoDataRespects(env: Env, events: seq<Event>)
    requires NoData(env, events)
    ensures RespectsWindow(env, events)
  {
    hide Run;
    forall n | 0 <= n <= |events|
      ensures ClientWindow(Run(env, events[..n]).core) >= 0
    {
      assert Run(env, events[..n]).core.hist.dataIn == [];
    }
  }

  /** So the dead end is within reach of every such client: after the opening, five moves with a window's worth of data. */
  lemma DeadEndReached(env: Env, cookie: seq<byte>, secret: Bytes32, user: seq<byte>, pass: seq<byte>, data: seq<byte>)
    returns (events: seq<Event>)
    requires Willing(env) && |cookie| == 16 && |data| == LOCAL_WINDOW
    requires Consenting(env, CStr(D.Kept(user)), CStr(pass)) && FitsPacket(user, pass)
    ensures RespectsWindow(env, events) && Run(env, events).core.chan.shellReady
    ensures Stuck(AfterAll(env, Run(env, events).core, ToTheEnd(env, data, cookie, secret)))
  {
    hide Run;
    hide Willing;
    hide Consenting;
    hide RespectsWindow;
    hide ToTheEnd;
    hide AfterAll;
    hide Stuck;
    hide InWindow;
    events := SessionOpens(env, cookie, secret, user, pass, 32768, 32768);
    DeadEnd(env, events, data, cookie, secret, []);
  }
}
