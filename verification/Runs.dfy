/** What holds in every state that any run of the connection can reach. */
module Runs {
  import opened Bytes
  import opened Wire
  import opened Environment
  import opened RecordLayer
  import opened Session
  import opened SessionFrames
  import opened ServiceInvariants
  import K = KexInvariants
  import opened Connection

  ghost predicate Good(env: Env, k: Core) {
    SvcInv(k) && K.KexInv(k, SeenOf(k.hist.handled)) && OutOk(env, k)
  }

  function Rank(s: SshState): nat {
    match s
    case StVersion => 0
    case StKex => 1
    case StAuth => 2
    case StConn => 3
    case StClosed => 4
  }

  /** No step undoes anything: the logs only grow and the state only moves forward. */
  predicate Onward(k: Core, k': Core) {
    && k.hist.sent <= k'.hist.sent && k.hist.handled <= k'.hist.handled
    && k.hist.auths <= k'.hist.auths && k.hist.hashes <= k'.hist.hashes
    && k.hist.dataIn <= k'.hist.dataIn && k.hist.dataRead <= k'.hist.dataRead
    && Rank(k.state) <= Rank(k'.state)
  }

  lemma OnwardTransitive(a: Core, b: Core, c: Core)
    requires Onward(a, b) && Onward(b, c)
    ensures Onward(a, c)
  {
  }

  /** Onward while nobody reads: what input can do. */
  predicate Forward(k: Core, k': Core) {
    Onward(k, k') && Inflow(k, k')
  }

  lemma ForwardTransitive(a: Core, b: Core, c: Core)
    requires Forward(a, b) && Forward(b, c) && InflowInv(c)
    ensures Forward(a, c)
  {
    hide TraceOf;
    hide K.Agreed;
    hide K.OursIn;
  }

  // ---- one packet ----

  ghost predicate HandledOk(env: Env, k: Core, seen: Seen, r: Ret) {
    && SvcInv(r.k) && K.KexInv(r.k, seen) && OutOk(env, r.k) && (!r.ok ==> r.k.state.StClosed?)
    && r.k.hist.handled == k.hist.handled && Onward(k, r.k) && Inflow(k, r.k) && r.k.version == k.version
  }

  lemma ServiceHalf(env: Env, k: Core, seen: Seen, r: Ret)
    requires K.KexInv(k, seen) && OutOk(env, k) && ServiceOk(env, k, r)
    ensures HandledOk(env, k, seen, r)
  {
    hide TraceOf;
    hide K.Agreed;
    hide K.OursIn;
    hide Chain;
    hide EpochsOk;
    hide SvcInv;
    hide K.KexInv;
    K.KexFrameKeeps(k, r.k, seen);
  }

  lemma TransportHalf(env: Env, k: Core, seen: Seen, r: Ret)
    requires SvcInv(k) && OutOk(env, k) && K.TransportOk(env, k, seen, r)
    ensures HandledOk(env, k, seen, r)
  {
    hide TraceOf;
    hide K.Agreed;
    hide K.OursIn;
    hide Chain;
    hide EpochsOk;
    hide SvcInv;
    hide K.KexInv;
    SessFrameKeeps(k, r.k);
  }

  lemma GuessDroppedOk(env: Env, k: Core, seen: Seen, p: seq<byte>)
    requires SvcInv(k) && K.KexInv(k, seen) && OutOk(env, k) && !k.state.StClosed? && p != [] && GuessDropped(k, p[0])
    ensures HandledOk(env, k, See(seen, p), Ret(k.(ignoreNext := false, hist := k.hist.(dropped := k.hist.dropped + 1)), true))
  {
    hide TraceOf;
    hide K.Agreed;
    hide K.OursIn;
    hide Chain;
    hide EpochsOk;
    hide Refusals;
    hide Yes;
  }

  lemma HandlePacketOk(env: Env, k: Core, seen: Seen, p: seq<byte>)
    requires SvcInv(k) && K.KexInv(k, seen) && OutOk(env, k) && !k.state.StClosed?
    ensures HandledOk(env, k, See(seen, p), HandlePacket(env, k, p))
  {
    hide HandledOk;
    hide SvcInv;
    hide K.KexInv;
    hide OutOk;
    hide K.TransportOk;
    hide ServiceOk;
    hide HandleTransport;
    hide HandleService;
    hide Fail;
    if p == [] {
      K.FailOk(env, k, seen, See(seen, p), DISC_PROTOCOL_ERROR, "empty payload");
      TransportHalf(env, k, See(seen, p), Fail(env, k, DISC_PROTOCOL_ERROR, "empty payload"));
    } else if GuessDropped(k, p[0]) {
      GuessDroppedOk(env, k, seen, p);
    } else if k.state.StVersion? {
      K.FailOk(env, k, seen, See(seen, p), DISC_PROTOCOL_ERROR, "packet before version");
      TransportHalf(env, k, See(seen, p), Fail(env, k, DISC_PROTOCOL_ERROR, "packet before version"));
    } else if p[0] < 50 {
      K.HandleTransportOk(env, k, seen, p);
      TransportHalf(env, k, See(seen, p), HandleTransport(env, k, p));
    } else {
      HandleServiceOk(env, k, p);
      ServiceHalf(env, k, seen, HandleService(env, k, p));
    }
  }

  lemma LogKeeps(env: Env, k: Core, seen: Seen, h: seq<seq<byte>>)
    requires SvcInv(k) && K.KexInv(k, seen) && OutOk(env, k)
    ensures var k1 := k.(hist := k.hist.(handled := h));
      SvcInv(k1) && K.KexInv(k1, seen) && OutOk(env, k1)
  {
    hide TraceOf;
    hide K.Agreed;
    hide K.OursIn;
    hide Chain;
    hide EpochsOk;
    hide Refusals;
    hide Yes;
  }

  /** Every payload out of the record layer keeps everything. */
  lemma DeliverOk(env: Env, k: Core, p: seq<byte>)
    requires Good(env, k) && !k.state.StClosed?
    ensures var r := Deliver(env, k, p);
      Good(env, r.k) && Forward(k, r.k) && (!r.ok ==> r.k.state.StClosed?)
      && r.k.hist.handled == k.hist.handled + [p] && r.k.version == k.version
  {
    hide SvcInv;
    hide K.KexInv;
    hide OutOk;
    hide HandlePacket;
    hide SeenOf;
    var seen := SeenOf(k.hist.handled);
    var k1 := k.(hist := k.hist.(handled := k.hist.handled + [p]));
    LogKeeps(env, k, seen, k.hist.handled + [p]);
    SeenSnoc(k.hist.handled, p);
    HandlePacketOk(env, k1, seen, p);
  }

  // ---- one step of the input loop ----

  lemma RxDir(env: Env, x: Rx)
    requires RxOk(x)
    ensures var d := RxStep(env, x).0.dir;
      d == x.dir.(pos := d.pos, seqNo := d.seqNo)
  {
    hide RxPlain;
    hide Crypt;
  }

  lemma InDirKeeps(env: Env, k: Core, d: Dir)
    requires Good(env, k) && d == k.inDir.(pos := d.pos, seqNo := d.seqNo)
    ensures Good(env, k.(inDir := d)) && Forward(k, k.(inDir := d))
  {
    hide TraceOf;
    hide K.Agreed;
    hide K.OursIn;
    hide SeenOf;
    hide Chain;
    hide EpochsOk;
    hide Refusals;
    hide Yes;
  }

  lemma DisconnectOk(env: Env, k: Core, reason: uint32, msg: string)
    requires Good(env, k) && |msg| <= 1000
    ensures Good(env, Disconnect(env, k, reason, msg)) && Forward(k, Disconnect(env, k, reason, msg))
  {
    hide TraceOf;
    hide K.Agreed;
    hide K.OursIn;
    hide SeenOf;
    hide SvcInv;
    hide K.KexInv;
    hide OutOk;
    hide SendPacket;
    if !k.state.StClosed? {
      QuietFail(env, k, reason, msg);
      var k1 := Disconnect(env, k, reason, msg);
      assert Fail(env, k, reason, msg).k == k1;
      SessFrameKeeps(k, k1);
      K.KexFrameKeeps(k, k1, SeenOf(k.hist.handled));
    }
  }

  ghost predicate StepOk(env: Env, c: Conn, r: (Conn, int)) {
    && Good(env, r.0.core) && Forward(c.core, r.0.core)
    && (r.1 < 0 <==> r.0.core.state.StClosed?)
  }

  lemma RefuseOk(env: Env, c: Conn, c1: Conn, reason: uint32, msg: string)
    requires Good(env, c1.core) && Forward(c.core, c1.core) && |msg| <= 1000
    ensures StepOk(env, c, Refuse(env, c1, reason, msg))
  {
    hide Forward;
    hide Disconnect;
    hide OutOk;
    hide K.KexInv;
    hide InflowInv;
    DisconnectOk(env, c1.core, reason, msg);
    ForwardTransitive(c.core, c1.core, Disconnect(env, c1.core, reason, msg));
  }

  lemma PacketOk(env: Env, c: Conn)
    requires ConnOk(c) && Good(env, c.core) && !c.core.state.StVersion? && !c.core.state.StClosed?
    ensures StepOk(env, c, Packet(env, c))
  {
    hide RxStep;
    hide Deliver;
    hide OutOk;
    hide K.KexInv;
    hide InflowInv;
    hide Refuse;
    hide Forward;
    RxDir(env, RxOf(c));
    var (x, res) := RxStep(env, RxOf(c));
    var c1 := WithRx(c.core, x);
    InDirKeeps(env, c.core, x.dir);
    RefuseOk(env, c, c1, DISC_PROTOCOL_ERROR, "bad packet length");
    RefuseOk(env, c, c1, DISC_MAC_ERROR, "MAC mismatch");
    RefuseOk(env, c, c1, DISC_PROTOCOL_ERROR, "bad padding");
    if res.Got? {
      DeliverOk(env, c1.core, res.payload);
      ForwardTransitive(c.core, c1.core, Deliver(env, c1.core, res.payload).k);
    }
  }

  /** The client's line is taken and the server's KEXINIT is the next packet out. */
  predicate Started(k: Core, line: seq<byte>, k': Core) {
    && k.state.StVersion? && (k'.state.StKex? || k'.state.StClosed?)
    && SentOne(k.(version := line, state := StKex, kex := KxWaitKexInit, serverKexInit := k'.serverKexInit, kexInitSent := true), k',
               k'.serverKexInit)
    && Is(k'.serverKexInit, MSG_KEXINIT)
  }

  lemma StartedKex(env: Env, k: Core, line: seq<byte>, k': Core)
    requires Good(env, k) && Started(k, line, k') && K.OursIn(k'.serverKexInit)
    ensures K.KexInv(k', SeenOf(k'.hist.handled))
  {
    hide TraceOf;
    hide K.Agreed;
    hide K.OursIn;
    hide SeenOf;
    hide SvcInv;
    hide OutOk;
  }

  lemma StartedSvc(env: Env, k: Core, line: seq<byte>, k': Core)
    requires Good(env, k) && Started(k, line, k')
    ensures SvcInv(k') && Forward(k, k')
  {
    hide TraceOf;
    hide K.KexInv;
    hide SeenOf;
    hide OutOk;
    hide Refusals;
    hide Yes;
  }

  lemma TakeVersionOk(env: Env, k: Core, line: seq<byte>)
    requires Good(env, k) && k.state.StVersion?
    ensures var r := TakeVersion(env, k, line);
      Good(env, r.k) && Forward(k, r.k) && (r.k.state.StClosed? <==> !r.ok)
  {
    hide TraceOf;
    hide K.OursIn;
    hide SeenOf;
    hide SvcInv;
    hide Chain;
    hide EpochsOk;
    hide SendKexInit;
    var k1 := k.(version := line, state := StKex, kex := KxWaitKexInit);
    K.SendInit(env, k1);
    assert !k1.kexInitSent;
    StartedKex(env, k, line, SendKexInit(env, k1).k);
    StartedSvc(env, k, line, SendKexInit(env, k1).k);
  }

  lemma VersionLineOk(env: Env, c: Conn)
    requires ConnOk(c) && Good(env, c.core) && c.core.state.StVersion?
    ensures StepOk(env, c, VersionLine(env, c))
  {
    hide Good;
    hide Disconnect;
    hide TakeVersion;
    hide LfAt;
    DisconnectOk(env, c.core, DISC_PROTOCOL_ERROR, "version line too long");
    DisconnectOk(env, c.core, DISC_PROTOCOL_ERROR, "only SSH 2.0 is supported");
    var i := LfAt(c.buf, 0);
    if i < |c.buf| {
      TakeVersionOk(env, c.core, LineOf(c.buf, i));
    }
  }

  lemma TryOneOk(env: Env, c: Conn)
    requires ConnOk(c) && Good(env, c.core)
    ensures StepOk(env, c, TryOne(env, c))
  {
    hide Good;
    hide VersionLine;
    hide Packet;
    if c.core.state.StVersion? {
      VersionLineOk(env, c);
    } else if !c.core.state.StClosed? {
      PacketOk(env, c);
    }
  }

  /** The packet loop stops with the connection closed or with too little input for one more step. */
  lemma {:induction false} DrainOk(env: Env, c: Conn)
    requires ConnOk(c) && Good(env, c.core)
    ensures var d := Drain(env, c);
      Good(env, d.core) && Forward(c.core, d.core) && (d.core.state.StClosed? || |d.buf| < MAX_PACKET + MAX_MAC)
    decreases |c.buf|
  {
    hide OutOk;
    hide K.KexInv;
    hide InflowInv;
    hide TryOne;
    hide Forward;
    TryOneOk(env, c);
    var (c1, r) := TryOne(env, c);
    if r == 1 {
      DrainOk(env, c1);
      ForwardTransitive(c.core, c1.core, Drain(env, c1).core);
    } else if r == 0 {
      TryOneRoom(env, c);
    } else {
      TryOneResult(env, c);
    }
  }

  lemma TryOneResult(env: Env, c: Conn)
    requires ConnOk(c)
    ensures -1 <= TryOne(env, c).1 <= 1
  {
    hide RxStep;
    hide Deliver;
    hide TakeVersion;
    hide LfAt;
    hide Disconnect;
  }

  lemma TryOneRoom(env: Env, c: Conn)
    requires ConnOk(c) && TryOne(env, c).1 == 0
    ensures |TryOne(env, c).0.buf| < MAX_PACKET + MAX_MAC
  {
    hide RxStep;
    hide Deliver;
    hide TakeVersion;
    hide LfAt;
    hide Disconnect;
    if !c.core.state.StVersion? && !c.core.state.StClosed? && RxStep(env, RxOf(c)).1.NeedMore? {
      ReceiveProgress(env, RxOf(c));
    }
  }

  // ---- the calls ----

  ghost predicate CallOk(env: Env, k: Core, k': Core) {
    Good(env, k') && Onward(k, k')
  }

  lemma StayOk(env: Env, k: Core)
    requires Good(env, k)
    ensures CallOk(env, k, k)
  {
  }

  lemma LostOk(env: Env, k: Core)
    requires Good(env, k)
    ensures CallOk(env, k, k.(state := StClosed))
  {
    hide TraceOf;
    hide K.Agreed;
    hide K.OursIn;
    hide SeenOf;
    hide Chain;
    hide EpochsOk;
    hide Refusals;
    hide Yes;
  }

  lemma VersionOutOk(env: Env, k: Core)
    requires Good(env, k)
    ensures CallOk(env, k, SendVersion(env, k))
  {
    hide Good;
    StayOk(env, k);
    var k1 := k.(versionSent := true, writes := k.writes + 1);
    var k2 := k.(writes := k.writes + 1);
    WritesOnly(env, k, k1);
    WritesOnly(env, k, k2);
    LostOk(env, k2);
  }

  lemma WritesOnly(env: Env, k: Core, k1: Core)
    requires Good(env, k) && k1 == k.(versionSent := k1.versionSent, writes := k1.writes)
    ensures CallOk(env, k, k1)
  {
    hide TraceOf;
    hide K.Agreed;
    hide K.OursIn;
    hide SeenOf;
    hide Chain;
    hide EpochsOk;
    hide Refusals;
    hide Yes;
  }

  lemma TakeRingOk(env: Env, k: Core, n: nat)
    requires Good(env, k) && n <= |k.ring|
    ensures CallOk(env, k, TakeRing(k, n))
  {
    hide TraceOf;
    hide K.Agreed;
    hide K.OursIn;
    hide SeenOf;
    hide Chain;
    hide EpochsOk;
    hide Refusals;
    hide Yes;
    hide InflowInv;
    TakenIn(k, n);
  }

  lemma TakenIn(k: Core, n: nat)
    requires InflowInv(k) && n <= |k.ring|
    ensures InflowInv(TakeRing(k, n))
  {
    hide TraceOf;
    assert k.ring == k.ring[..n] + k.ring[n..];
    Associates(k.hist.dataRead, k.ring[..n], k.ring[n..]);
    Low32Add(|k.hist.dataRead| - TraceOf(k.hist.sent).adjusts, n);
  }

  /** A window adjust or channel data may go out exactly because no key exchange is open. */
  lemma FlowSent(k: Core, k1: Core, payload: seq<byte>, seen: Seen)
    requires K.KexInv(k, seen) && CanSendNow(k) && SentOne(k, k1, payload)
    requires k1.state == k.state || k1.state.StClosed?
    requires Is(payload, MSG_WINDOW_ADJUST) || Is(payload, MSG_CHANNEL_DATA)
    ensures K.KexInv(k1, seen)
  {
    hide TraceOf;
    hide K.Agreed;
    hide K.OursIn;
  }

  /** A window adjust is byte 93, the client's channel and what has been read and not yet given back. */
  lemma AdjustMsg(k: Core)
    ensures var m := WindowAdjustMsg(k);
      && m == Message(93, [IU32(k.chan.remote), IU32(k.consumed)])
      && Fields(m, [WORD, WORD]) == Some([IU32(k.chan.remote), IU32(k.consumed)])
      && |m| == 9 && Is(m, MSG_WINDOW_ADJUST) && AdjustIn(m) == k.consumed
  {
    hide PutU32;
    hide Encoded;
    hide Fields;
    var items := [IU32(k.chan.remote), IU32(k.consumed)];
    MessageTwo(93, IU32(k.chan.remote), IU32(k.consumed));
    SizeOfTwo(IU32(k.chan.remote), IU32(k.consumed));
    MessageFields(93, items, [WORD, WORD]);
  }

  lemma AdjustSentOk(k: Core, k1: Core, payload: seq<byte>)
    requires SvcInv(k) && !k.state.StClosed? && SentOne(k, k1, payload) && k.chan.open
    requires Is(payload, MSG_WINDOW_ADJUST) && AdjustIn(payload) == k.consumed
    ensures k1.state.StClosed? ==> SvcInv(k1)
    ensures k1.state == k.state ==> SvcInv(k1.(consumed := 0))
  {
    hide TraceOf;
    hide K.Agreed;
    hide K.OursIn;
    hide Refusals;
    hide Yes;
    hide AdjustIn;
  }

  lemma SendAdjustOk(env: Env, k: Core)
    requires Good(env, k) && CanSendNow(k)
    ensures var r := SendPacket(env, k, WindowAdjustMsg(k));
      CallOk(env, k, if r.ok then r.k.(consumed := 0) else r.k)
  {
    hide SendPacket;
    hide WindowAdjustMsg;
    hide SvcInv;
    hide K.KexInv;
    hide TraceOf;
    hide K.Agreed;
    hide K.OursIn;
    hide SeenOf;
    hide Chain;
    hide EpochsOk;
    var m, seen := WindowAdjustMsg(k), SeenOf(k.hist.handled);
    AdjustMsg(k);
    Send(env, k, m);
    SendOut(env, k, m);
    var r := SendPacket(env, k, m);
    FlowSent(k, r.k, m, seen);
    assert k.chan.open;
    AdjustSentOk(k, r.k, m);
    ConsumedOnly(r.k, seen);
  }

  lemma ConsumedOnly(k: Core, seen: Seen)
    requires K.KexInv(k, seen)
    ensures K.KexInv(k.(consumed := 0), seen)
  {
    hide TraceOf;
    hide K.Agreed;
    hide K.OursIn;
  }

  lemma ReadRingOk(env: Env, k: Core, max: nat)
    requires Good(env, k)
    ensures CallOk(env, k, ReadRing(env, k, max))
  {
    hide Good;
    hide SendPacket;
    hide TakeRing;
    StayOk(env, k);
    if k.ring != [] {
      var k1 := TakeRing(k, Taken(k, max));
      TakeRingOk(env, k, Taken(k, max));
      if k1.consumed >= LOCAL_WINDOW / 2 && CanSendNow(k1) {
        SendAdjustOk(env, k1);
        OnwardTransitive(k, k1, ReadRing(env, k, max));
      }
    }
  }

  /** Channel data is byte 94, the client's channel and the data as a string. */
  lemma DataMsgShape(k: Core, d: seq<byte>)
    requires |d| <= DATA_CHUNK
    ensures var m := DataMsg(k, d);
      && m == Message(94, [IU32(k.chan.remote), IStr(d)])
      && Fields(m, [WORD, NAME]) == Some([IU32(k.chan.remote), IStr(d)])
      && |m| == 9 + |d| && Is(m, MSG_CHANNEL_DATA) && DataIn(m) == d
  {
    hide PutU32;
    hide Encoded;
    hide Fields;
    var items := [IU32(k.chan.remote), IStr(d)];
    MessageTwo(94, IU32(k.chan.remote), IStr(d));
    SizeOfTwo(IU32(k.chan.remote), IStr(d));
    MessageFields(94, items, [WORD, NAME]);
  }

  lemma DataSentOk(k: Core, k1: Core, payload: seq<byte>)
    requires SvcInv(k) && !k.state.StClosed? && SentOne(k, k1, payload) && k.chan.open
    requires Is(payload, MSG_CHANNEL_DATA) && |DataIn(payload)| <= k.chan.window
    ensures k1.state.StClosed? ==> SvcInv(k1)
    ensures k1.state == k.state ==> SvcInv(k1.(chan := k1.chan.(window := k1.chan.window - |DataIn(payload)|)))
  {
    hide TraceOf;
    hide K.Agreed;
    hide K.OursIn;
    hide Refusals;
    hide Yes;
    hide DataIn;
    Low32Add(k.hist.granted - |TraceOf(k.hist.sent).data|, -|DataIn(payload)|);
  }

  lemma WindowOnly(env: Env, k: Core, seen: Seen, window: uint32)
    requires K.KexInv(k, seen)
    ensures K.KexInv(k.(chan := k.chan.(window := window)), seen)
  {
    hide TraceOf;
    hide K.Agreed;
    hide K.OursIn;
  }

  lemma ChunkOutOk(env: Env, k: Core, m: seq<byte>, n: nat)
    requires Good(env, k) && MayWrite(k) && Is(m, MSG_CHANNEL_DATA) && |m| <= MAX_PAYLOAD && |DataIn(m)| == n <= k.chan.window
    ensures var r := SendPacket(env, k, m);
      CallOk(env, k, if r.ok then r.k.(chan := r.k.chan.(window := r.k.chan.window - n)) else r.k)
  {
    hide SendPacket;
    hide DataIn;
    hide SvcInv;
    hide K.KexInv;
    hide TraceOf;
    hide K.Agreed;
    hide K.OursIn;
    hide SeenOf;
    hide Chain;
    hide EpochsOk;
    var seen := SeenOf(k.hist.handled);
    Send(env, k, m);
    SendOut(env, k, m);
    var r := SendPacket(env, k, m);
    FlowSent(k, r.k, m, seen);
    DataSentOk(k, r.k, m);
    WindowOnly(env, r.k, seen, r.k.chan.window - n);
  }

  lemma WriteChunkOk(env: Env, k: Core, buf: seq<byte>)
    requires Good(env, k)
    ensures CallOk(env, k, WriteChunk(env, k, buf).k)
  {
    hide SendPacket;
    hide DataMsg;
    hide Good;
    hide DataIn;
    hide Fields;
    hide Message;
    if MayWrite(k) {
      var n := ChunkLen(k, |buf|);
      DataMsgShape(k, buf[..n]);
      ChunkOutOk(env, k, DataMsg(k, buf[..n]), n);
    } else {
      StayOk(env, k);
    }
  }

  lemma QuietCall(env: Env, k: Core, payload: seq<byte>)
    requires Good(env, k) && Plainly(payload)
    ensures CallOk(env, k, SendPacket(env, k, payload).k)
  {
    hide SvcInv;
    hide K.KexInv;
    hide TraceOf;
    hide K.Agreed;
    hide K.OursIn;
    hide SeenOf;
    hide OutOk;
    if !k.state.StClosed? {
      hide SendPacket;
      var k1 := SendPacket(env, k, payload).k;
      QuietSend(env, k, payload);
      SessFrameKeeps(k, k1);
      K.KexFrameKeeps(k, k1, SeenOf(k.hist.handled));
    }
  }

  lemma CloseSentOk(env: Env, k: Core)
    requires Good(env, k)
    ensures CallOk(env, k, k.(chan := k.chan.(closeSent := true)))
  {
    hide TraceOf;
    hide K.Agreed;
    hide K.OursIn;
    hide SeenOf;
    hide Chain;
    hide EpochsOk;
    hide Refusals;
    hide Yes;
  }

  lemma CloseChannelOk(env: Env, k: Core, exitStatus: uint32)
    requires Good(env, k)
    ensures CallOk(env, k, CloseChannel(env, k, exitStatus))
  {
    hide SendPacket;
    hide Good;
    StayOk(env, k);
    if ClosesChannel(k) {
      var m := [MSG_CHANNEL_REQUEST] + PutU32(k.chan.remote) + Str(Ascii("exit-status")) + [0] + PutU32(exitStatus);
      var k1 := SendPacket(env, k, m).k;
      QuietCall(env, k, m);
      var k2 := SendChannelReply(env, k1, MSG_CHANNEL_EOF).k;
      QuietCall(env, k1, [MSG_CHANNEL_EOF] + PutU32(k1.chan.remote));
      var k3 := SendChannelReply(env, k2, MSG_CHANNEL_CLOSE).k;
      QuietCall(env, k2, [MSG_CHANNEL_CLOSE] + PutU32(k2.chan.remote));
      CloseSentOk(env, k3);
      OnwardTransitive(k, k1, k2);
      OnwardTransitive(k, k2, k3);
      OnwardTransitive(k, k3, CloseChannel(env, k, exitStatus));
    }
  }

  // ---- every run ----

  ghost predicate Roomy(c: Conn) {
    c.core.state.StClosed? || |c.buf| < MAX_PACKET + MAX_MAC
  }

  lemma InputOk(env: Env, c: Conn, d: seq<byte>)
    requires ConnOk(c) && Good(env, c.core)
    ensures Good(env, Feed(env, c, d).core) && Forward(c.core, Feed(env, c, d).core) && Roomy(Feed(env, c, d))
  {
    hide Good;
    hide Drain;
    DrainOk(env, c.(buf := c.buf + d));
  }

  lemma ApplyOk(env: Env, c: Conn, e: Event)
    requires ConnOk(c) && Good(env, c.core) && Roomy(c)
    ensures Good(env, Apply(env, c, e).core) && Onward(c.core, Apply(env, c, e).core) && Roomy(Apply(env, c, e))
  {
    hide Good;
    hide Feed;
    hide SendVersion;
    hide ReadRing;
    hide WriteChunk;
    hide CloseChannel;
    hide Disconnect;
    match e
    case Input(d) => InputOk(env, c, d);
    case TransportLost => LostOk(env, c.core);
    case VersionOut => VersionOutOk(env, c.core);
    case ReadCall(max) => ReadRingOk(env, c.core, max);
    case WriteCall(d) => WriteChunkOk(env, c.core, d);
    case CloseCall(s) => CloseChannelOk(env, c.core, s);
    case GiveUp(timeout) => DisconnectOk(env, c.core, DISC_BY_APPLICATION, GiveUpNote(timeout));
  }

  lemma FreshSvc()
    ensures SvcInv(INIT)
  {
    hide TraceOf;
    hide K.Agreed;
    hide K.OursIn;
    hide Refusals;
    hide Yes;
    hide Low32;
    NoRefusals();
    NoLow();
    NoTrace();
    assert [] + INIT.ring == [];
  }

  lemma StartKex(k: Core)
    requires TraceOf(k.hist.sent) == NO_TRACE && k.state.StVersion? && k.kex.KxIdle? && !k.kexInitSent && !k.ignoreNext
    requires k.hist.dropped == 0 && k.sid.None? && k.hist.hashes == [] && k.hist.outKeys == []
    requires k.inDir == k.outDir == CLEAR && k.serverKexInit == k.clientKexInit == []
    ensures K.KexInv(k, Seen(0, 0, []))
  {
    hide TraceOf;
    hide K.Agreed;
    hide K.OursIn;
  }

  lemma FreshKex()
    ensures K.KexInv(INIT, Seen(0, 0, []))
  {
    hide TraceOf;
    hide K.KexInv;
    NoTrace();
    StartKex(INIT);
  }

  lemma FreshOut(env: Env)
    ensures OutOk(env, INIT)
  {
    hide Chain;
    hide MsgsOf;
    hide CountNewKeys;
    NothingYet(env);
  }

  lemma FreshOk(env: Env)
    ensures Good(env, INIT)
  {
    hide SvcInv;
    hide K.KexInv;
    hide OutOk;
    hide SeenOf;
    FreshSvc();
    FreshKex();
    FreshOut(env);
    NothingSeen();
  }

  lemma NoTrace()
    ensures TraceOf(INIT.hist.sent) == NO_TRACE
  {
  }

  lemma NothingSeen()
    ensures SeenOf(INIT.hist.handled) == Seen(0, 0, [])
  {
  }

  lemma NoRefusals()
    ensures Refusals([]) == 0 && Yes([]) == 0
  {
  }

  lemma NoLow()
    ensures Low32(0) == 0
  {
  }

  lemma NothingYet(env: Env)
    ensures Chain(env, INIT.hist.sent, INIT.hist.outKeys, INIT.outDir) && CountNewKeys(MsgsOf(INIT.hist.sent)) == 0
  {
  }

  lemma {:induction false} RunOk(env: Env, events: seq<Event>)
    ensures Good(env, Run(env, events).core) && Roomy(Run(env, events))
    decreases |events|
  {
    hide Good;
    hide Apply;
    if events == [] {
      FreshOk(env);
    } else {
      RunOk(env, events[..|events| - 1]);
      ApplyOk(env, Run(env, events[..|events| - 1]), events[|events| - 1]);
    }
  }

  lemma {:induction false} RunOnward(env: Env, before: seq<Event>, after: seq<Event>)
    ensures Onward(Run(env, before).core, Run(env, before + after).core)
    decreases |after|
  {
    hide Good;
    hide Apply;
    hide Onward;
    if after == [] {
      assert before + after == before;
      OnwardSelf(Run(env, before).core);
    } else {
      var n := |after| - 1;
      var init, all := before + after[..n], before + after;
      assert all[..|all| - 1] == init && all[|all| - 1] == after[n];
      RunOnward(env, before, after[..n]);
      RunOk(env, init);
      ApplyOk(env, Run(env, init), after[n]);
      OnwardTransitive(Run(env, before).core, Run(env, init).core, Run(env, all).core);
    }
  }

  lemma OnwardSelf(k: Core)
    ensures Onward(k, k)
  {
  }
}
