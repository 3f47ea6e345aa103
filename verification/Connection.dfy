/** A whole connection: the version line, packets out of arbitrarily split input, and runs of everything a caller can
    make the connection do. */
module Connection {
  import opened Bytes
  import opened Wire
  import opened Environment
  import opened RecordLayer
  import opened Session

  const LF: byte := 10
  const CR: byte := 13

  datatype Conn = Conn(core: Core, buf: seq<byte>, haveLen: bool, pktLen: uint32)

  const FRESH := Conn(INIT, [], false, 0)

  function RxOf(c: Conn): Rx {
    Rx(c.core.inDir, c.buf, c.haveLen, c.pktLen)
  }

  predicate ConnOk(c: Conn) {
    RxOk(RxOf(c)) && (c.core.state.StVersion? ==> !c.haveLen)
  }

  // ---- the version line ----

  function LfAt(s: seq<byte>, i: nat): (j: nat)
    requires i <= |s|
    ensures i <= j <= |s|
    ensures forall k :: i <= k < j ==> s[k] != LF
    ensures j < |s| ==> s[j] == LF
    decreases |s| - i
  {
    if i == |s| || s[i] == LF then i else LfAt(s, i + 1)
  }

  /** The line without its LF or CR LF. */
  function LineOf(s: seq<byte>, i: nat): seq<byte>
    requires i < |s|
  {
    if i > 0 && s[i - 1] == CR then s[..i - 1] else s[..i]
  }

  predicate IsSshLine(line: seq<byte>) {
    |line| >= 4 && line[..4] == Ascii("SSH-")
  }

  predicate IsSsh2(line: seq<byte>) {
    |line| >= 8 && (line[..7] == Ascii("SSH-2.0") || line[..8] == Ascii("SSH-1.99"))
  }

  /** Taking the client's version starts the first key exchange. */
  function TakeVersion(env: Env, k: Core, line: seq<byte>): Ret {
    var k1 := k.(version := line, state := StKex, kex := KxWaitKexInit);
    if k1.kexInitSent then Ret(k1, true) else SendKexInit(env, k1)
  }

  /** The number is the C result: 1 something was processed, 0 more bytes are needed, -1 the connection closed. */
  function VersionLine(env: Env, c: Conn): (r: (Conn, int))
    requires ConnOk(c) && c.core.state.StVersion?
    ensures ConnOk(r.0) && (r.1 == 1 ==> |r.0.buf| < |c.buf|)
  {
    hide Disconnect;
    hide TakeVersion;
    var i := LfAt(c.buf, 0);
    if i == |c.buf| then
      if |c.buf| >= 255 then (c.(core := Disconnect(env, c.core, DISC_PROTOCOL_ERROR, "version line too long")), -1)
      else (c, 0)
    else
      var line := LineOf(c.buf, i);
      if !IsSshLine(line) then (c.(buf := c.buf[i + 1..]), 1)
      else if !IsSsh2(line) then (c.(core := Disconnect(env, c.core, DISC_PROTOCOL_ERROR, "only SSH 2.0 is supported")), -1)
      else
        var r := TakeVersion(env, c.core, line);
        (c.(core := r.k, buf := c.buf[i + 1..]), if r.ok then 1 else -1)
  }

  // ---- packets ----

  function WithRx(k: Core, x: Rx): Conn {
    Conn(k.(inDir := x.dir), x.buf, x.haveLen, x.pktLen)
  }

  function Refuse(env: Env, c: Conn, reason: uint32, msg: string): (Conn, int)
  {
    (c.(core := Disconnect(env, c.core, reason, msg)), -1)
  }

  /** What becomes of one step of the receiver. */
  function AfterStep(env: Env, k: Core, s: (Rx, RxResult)): (r: (Conn, int))
    requires RxOk(s.0) && !s.1.HaveLength? && (s.1.Got? ==> !s.0.haveLen) && !k.state.StVersion?
    ensures ConnOk(r.0) && (r.1 == 1 ==> s.1.Got? && r.0.buf == s.0.buf)
  {
    hide Deliver;
    hide Disconnect;
    var c := WithRx(k, s.0);
    match s.1
    case NeedMore => (c, 0)
    case BadLength => Refuse(env, c, DISC_PROTOCOL_ERROR, "bad packet length")
    case BadMac => Refuse(env, c, DISC_MAC_ERROR, "MAC mismatch")
    case BadPadding => Refuse(env, c, DISC_PROTOCOL_ERROR, "bad padding")
    case Got(p) =>
      var d := Deliver(env, c.core, p);
      (c.(core := d.k), if !d.ok || d.k.state.StClosed? then -1 else 1)
  }

  function Packet(env: Env, c: Conn): (r: (Conn, int))
    requires ConnOk(c) && !c.core.state.StVersion?
    ensures ConnOk(r.0) && (r.1 == 1 ==> |r.0.buf| < |c.buf|)
  {
    hide RxStep;
    hide AfterStep;
    AfterStep(env, c.core, RxStep(env, RxOf(c)))
  }

  /** TryProcessOne. */
  function TryOne(env: Env, c: Conn): (r: (Conn, int))
    requires ConnOk(c)
    ensures ConnOk(r.0) && (r.1 == 1 ==> |r.0.buf| < |c.buf|)
  {
    hide VersionLine;
    hide Packet;
    if c.core.state.StClosed? then (c, -1)
    else if c.core.state.StVersion? then VersionLine(env, c)
    else Packet(env, c)
  }

  /** The inner loop of ProcessInput: packets until there are none left. */
  function Drain(env: Env, c: Conn): (r: Conn)
    requires ConnOk(c)
    ensures ConnOk(r)
    decreases |c.buf|
  {
    hide TryOne;
    var (c1, r) := TryOne(env, c);
    if r == 1 then Drain(env, c1) else c1
  }

  lemma DrainStep(env: Env, c: Conn)
    requires ConnOk(c)
    ensures var (c1, r) := TryOne(env, c);
      Drain(env, c) == if r == 1 then Drain(env, c1) else c1
  {
    hide TryOne;
  }

  /** Some bytes arrive. */
  function Feed(env: Env, c: Conn, d: seq<byte>): (r: Conn)
    requires ConnOk(c)
    ensures ConnOk(r)
  {
    hide Drain;
    if c.core.state.StClosed? then c else Drain(env, c.(buf := c.buf + d))
  }

  function FeedAll(env: Env, c: Conn, chunks: seq<seq<byte>>): (r: Conn)
    requires ConnOk(c)
    ensures ConnOk(r)
    decreases |chunks|
  {
    hide Feed;
    if chunks == [] then c else FeedAll(env, Feed(env, c, chunks[0]), chunks[1..])
  }

  function Concat(chunks: seq<seq<byte>>): seq<byte>
    decreases |chunks|
  {
    if chunks == [] then [] else chunks[0] + Concat(chunks[1..])
  }

  // ---- runs ----

  /** Everything that can happen to a connection. Input is one read of the transport followed by the packet loop;
      the others are what the API calls do between reads. */
  datatype Event =
    | Input(data: seq<byte>)
    | TransportLost
    | VersionOut
    | ReadCall(max: nat)
    | WriteCall(data: seq<byte>)
    | CloseCall(exitStatus: uint32)
    | GiveUp(timeout: bool)

  function GiveUpNote(timeout: bool): string {
    if timeout then "handshake timeout" else "session ended"
  }

  function Apply(env: Env, c: Conn, e: Event): (r: Conn)
    requires ConnOk(c)
    ensures ConnOk(r)
  {
    hide Feed;
    hide SendVersion;
    hide ReadRing;
    hide WriteChunk;
    hide CloseChannel;
    hide Disconnect;
    match e
    case Input(d) => Feed(env, c, d)
    case TransportLost => c.(core := c.core.(state := StClosed))
    case VersionOut => c.(core := SendVersion(env, c.core))
    case ReadCall(max) => c.(core := ReadRing(env, c.core, max))
    case WriteCall(d) => c.(core := WriteChunk(env, c.core, d).k)
    case CloseCall(s) => c.(core := CloseChannel(env, c.core, s))
    case GiveUp(timeout) => c.(core := Disconnect(env, c.core, DISC_BY_APPLICATION, GiveUpNote(timeout)))
  }

  function Run(env: Env, events: seq<Event>): (r: Conn)
    ensures ConnOk(r)
    decreases |events|
  {
    hide Apply;
    if events == [] then FRESH
    else Apply(env, Run(env, events[..|events| - 1]), events[|events| - 1])
  }

  /** The bytes that a run has fed to the packet layer. */
  function Arrived(events: seq<Event>): seq<byte>
    decreases |events|
  {
    if events == [] then []
    else Arrived(events[..|events| - 1]) + (if events[|events| - 1].Input? then events[|events| - 1].data else [])
  }

  // ---- what a call leaves alone ----

  /** Packets have gone out, perhaps on a channel whose state moved with them; everything else is as it was. */
  predicate SentOnly(k: Core, k': Core) {
    && k'.outDir == k.outDir.(pos := k'.outDir.pos, seqNo := k'.outDir.seqNo)
    && k' == k.(state := k'.state, versionSent := k'.versionSent, drawn := k'.drawn, writes := k'.writes,
                outDir := k'.outDir, chan := k'.chan, hist := k.hist.(sent := k'.hist.sent))
  }

  lemma SendSends(env: Env, k: Core, payload: seq<byte>)
    ensures SentOnly(k, SendPacket(env, k, payload).k)
  {
    hide Seal;
    hide PadLen;
  }

  lemma CloseSends(env: Env, k: Core, exitStatus: uint32)
    ensures SentOnly(k, CloseChannel(env, k, exitStatus))
  {
    hide SendPacket;
    hide PutU32;
    hide Str;
    var m := [MSG_CHANNEL_REQUEST] + PutU32(k.chan.remote) + Str(Ascii("exit-status")) + [0] + PutU32(exitStatus);
    SendSends(env, k, m);
    var k1 := SendPacket(env, k, m).k;
    SendSends(env, k1, [MSG_CHANNEL_EOF] + PutU32(k1.chan.remote));
    var k2 := SendChannelReply(env, k1, MSG_CHANNEL_EOF).k;
    SendSends(env, k2, [MSG_CHANNEL_CLOSE] + PutU32(k2.chan.remote));
  }

  lemma ReadSends(env: Env, k: Core, max: nat)
    ensures var k' := ReadRing(env, k, max);
      if k.ring == [] then k' == k else SentOnly(TakeRing(k, Taken(k, max)).(consumed := k'.consumed), k')
  {
    hide SendPacket;
    hide PutU32;
    hide TakeRing;
    if k.ring != [] {
      var k1 := TakeRing(k, Taken(k, max));
      SendSends(env, k1, WindowAdjustMsg(k1));
    }
  }

  /** No call but a read moves bytes out of the ring, and none touches the input, the version or the key exchange. */
  lemma CallFrame(env: Env, c: Conn, e: Event)
    requires ConnOk(c) && !e.Input?
    ensures var k, c1 := c.core, Apply(env, c, e);
      && c1 == c.(core := c1.core)
      && (if e.ReadCall? && k.ring != [] then SentOnly(TakeRing(k, Taken(k, e.max)).(consumed := c1.core.consumed), c1.core)
          else SentOnly(k, c1.core))
  {
    hide SendPacket;
    hide DataMsg;
    hide DisconnectMsg;
    hide ReadRing;
    hide CloseChannel;
    hide SentOnly;
    hide TakeRing;
    var k := c.core;
    match e
    case ReadCall(max) => ReadSends(env, k, max); SentNothing(k);
    case WriteCall(d) => WriteSends(env, k, d);
    case CloseCall(s) => CloseSends(env, k, s);
    case GiveUp(t) => GiveUpSends(env, k, t);
    case VersionOut => VersionSends(env, k);
    case TransportLost => SentNothing(k);
  }

  lemma SentNothing(k: Core)
    ensures SentOnly(k, k) && SentOnly(k, k.(state := StClosed))
  {
  }

  lemma WriteSends(env: Env, k: Core, d: seq<byte>)
    ensures SentOnly(k, WriteChunk(env, k, d).k)
  {
    hide SendPacket;
    hide DataMsg;
    SendSends(env, k, DataMsg(k, d[..ChunkLen(k, |d|)]));
  }

  lemma GiveUpSends(env: Env, k: Core, timeout: bool)
    ensures SentOnly(k, Disconnect(env, k, DISC_BY_APPLICATION, GiveUpNote(timeout)))
  {
    hide SendPacket;
    hide DisconnectMsg;
    SendSends(env, k, DisconnectMsg(DISC_BY_APPLICATION, GiveUpNote(timeout)));
  }

  lemma VersionSends(env: Env, k: Core)
    ensures SentOnly(k, SendVersion(env, k))
  {
  }
}
