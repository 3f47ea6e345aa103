/** Authentication, channel and flow control: what every packet and every call keeps. */
module ServiceInvariants {
  import opened Bytes
  import opened Wire
  import opened Environment
  import opened Session
  import opened SessionFrames

  function Refusals(a: seq<bool>): nat {
    if a == [] then 0 else Refusals(a[..|a| - 1]) + if a[|a| - 1] then 0 else 1
  }

  lemma RefusalsSnoc(a: seq<bool>, yes: bool)
    ensures Refusals(a + [yes]) == Refusals(a) + if yes then 0 else 1
  {
    assert (a + [yes])[..|a|] == a;
  }

  function Yes(a: seq<bool>): nat {
    if a == [] then 0 else Yes(a[..|a| - 1]) + if a[|a| - 1] then 1 else 0
  }

  lemma YesSnoc(a: seq<bool>, yes: bool)
    ensures Yes(a + [yes]) == Yes(a) + if yes then 1 else 0
  {
    assert (a + [yes])[..|a|] == a;
  }

  /** A shell needs a channel, a channel needs a login, a login needs the callback's consent; at most five refusals. */
  predicate AuthInv(k: Core) {
    && k.login.tries == Refusals(k.hist.auths) && k.login.tries <= MAX_AUTH_TRIES
    && (k.login.tries == MAX_AUTH_TRIES ==> k.state.StClosed?)
    && (k.state.StConn? ==> k.login.authenticated)
    && Yes(k.hist.auths) == (if k.login.authenticated then 1 else 0)
    && (k.login.authenticated ==> true in k.hist.auths && (k.state.StConn? || k.state.StClosed?))
    && (k.chan.open ==> k.login.authenticated)
    && (k.chan.shellReady ==> k.chan.open)
    && HasSize(k.chan)
  }

  /** The terminal always has a size that can be shown. */
  predicate HasSize(c: Chan) {
    1 <= c.cols <= 999 && 1 <= c.rows <= 999
  }

  /** Every byte accepted is in the ring, has been read, or was dropped; what has been read and not yet given back
      to the client's window is `consumed`. */
  predicate InflowInv(k: Core) {
    var t := TraceOf(k.hist.sent);
    && |k.ring| <= RING_SIZE - 1
    && |k.hist.dataIn| == |k.hist.dataRead| + |k.ring| + k.hist.lost
    && (k.hist.lost == 0 ==> k.hist.dataIn == k.hist.dataRead + k.ring)
    && (!k.state.StClosed? ==> t.adjusts <= |k.hist.dataRead| && k.consumed == Low32(|k.hist.dataRead| - t.adjusts))
    && (!k.chan.open ==> k.hist.dataIn == [])
  }

  /** The client's window, as the server counts it: what was granted minus what was sent, modulo 2^32 and exactly
      so as long as no adjust has overflowed. */
  predicate OutflowInv(k: Core) {
    var t := TraceOf(k.hist.sent);
    && (!k.state.StClosed? && k.chan.open ==> k.chan.window == Low32(k.hist.granted - |t.data|))
    && (!k.state.StClosed? && k.chan.open && !k.hist.wrapped ==> k.chan.window == k.hist.granted - |t.data|)
    && (!k.hist.wrapped ==> |t.data| <= k.hist.granted)
    && (!k.chan.open ==> t.data == [])
  }

  predicate SvcInv(k: Core) {
    AuthInv(k) && InflowInv(k) && OutflowInv(k)
  }

  lemma SessFrameKeeps(k: Core, k': Core)
    requires SvcInv(k) && SessFrame(k, k')
    ensures SvcInv(k')
  {
    hide TraceOf;
    hide Refusals;
    hide Yes;
  }

  /** Packets only ever add to what waits to be read, bytes are lost only once the ring is full, and a channel stays
      open under the terms it was opened with. */
  predicate Inflow(k: Core, k': Core) {
    && (k.chan.open ==> k'.chan.open && k'.chan.maxPkt == k.chan.maxPkt)
    && k.hist.dataIn <= k'.hist.dataIn && k'.hist.dataRead == k.hist.dataRead && k'.consumed == k.consumed
    && k.ring <= k'.ring && k.hist.lost <= k'.hist.lost
    && (k'.hist.lost > k.hist.lost ==> |k'.ring| == RING_SIZE - 1)
    && SameFlowTrace(TraceOf(k.hist.sent), TraceOf(k'.hist.sent))
  }

  /** What a packet of the service half keeps. */
  ghost predicate ServiceOk(env: Env, k: Core, r: Ret) {
    && ServiceStep(env, k, r) && SvcInv(r.k)
    && k.hist.auths <= r.k.hist.auths && Inflow(k, r.k)
  }

  lemma FailOk(env: Env, k: Core, reason: uint32, msg: string)
    requires SvcInv(k) && !k.state.StClosed? && |msg| <= 1000
    ensures ServiceOk(env, k, Fail(env, k, reason, msg))
  {
    hide Fail;
    hide SvcInv;
    hide OutOk;
    hide KexFrame;
    QuietFail(env, k, reason, msg);
    SessFrameKeeps(k, Fail(env, k, reason, msg).k);
  }

  lemma SendOk(env: Env, k: Core, payload: seq<byte>)
    requires SvcInv(k) && !k.state.StClosed? && Plainly(payload)
    ensures ServiceOk(env, k, SendPacket(env, k, payload))
  {
    hide SendPacket;
    hide SvcInv;
    hide OutOk;
    hide KexFrame;
    QuietSend(env, k, payload);
    SessFrameKeeps(k, SendPacket(env, k, payload).k);
  }

  // ---- authentication ----

  lemma AuthFailureOk(env: Env, k: Core)
    requires SvcInv(k) && !k.state.StClosed?
    ensures ServiceOk(env, k, SendAuthFailure(env, k))
  {
    hide SendPacket;
    hide ServiceOk;
    hide SvcInv;
    SendOk(env, k, [MSG_USERAUTH_FAILURE] + Str(Ascii("password")) + [0]);
  }

  /** Changing nothing but the login and the callback's log is no business of the key exchange. */
  predicate LoginOnly(k: Core, k1: Core) {
    k1 == k.(login := k1.login, state := k1.state, hist := k.hist.(auths := k1.hist.auths))
    && (k1.state == k.state || (k.state.StAuth? && k1.state.StConn?))
    && k.hist.auths <= k1.hist.auths
  }

  lemma AfterLogin(env: Env, k: Core, k1: Core, r: Ret)
    requires LoginOnly(k, k1) && ServiceOk(env, k1, r)
    ensures ServiceOk(env, k, r)
  {
    hide TraceOf;
    hide Chain;
    hide EpochsOk;
    hide SvcInv;
  }

  lemma AuthAcceptedOk(env: Env, k: Core, k1: Core)
    requires SvcInv(k) && k.state.StAuth?
    requires k1 == k.(hist := k.hist.(auths := k.hist.auths + [true]))
    ensures ServiceOk(env, k,
      SendPacket(env, k1.(login := k1.login.(authenticated := true), state := StConn), [MSG_USERAUTH_SUCCESS]))
  {
    hide SendPacket;
    hide ServiceOk;
    hide TraceOf;
    RefusalsSnoc(k.hist.auths, true);
    YesSnoc(k.hist.auths, true);
    assert k1.hist.auths[|k.hist.auths|];
    var k2 := k1.(login := k1.login.(authenticated := true), state := StConn);
    assert SvcInv(k2);
    SendOk(env, k2, [MSG_USERAUTH_SUCCESS]);
    AfterLogin(env, k, k2, SendPacket(env, k2, [MSG_USERAUTH_SUCCESS]));
  }

  lemma AuthorizeOk(env: Env, k: Core, pass: seq<byte>)
    requires SvcInv(k) && k.state.StAuth?
    ensures ServiceOk(env, k, Authorize(env, k, pass))
  {
    hide SendPacket;
    hide SendAuthFailure;
    hide Fail;
    hide ServiceOk;
    hide SvcInv;
    hide CStr;
    var yes := Consents(env, k.login.tries, CStr(k.login.user), pass);
    var k1 := k.(hist := k.hist.(auths := k.hist.auths + [yes]));
    if yes {
      AuthAcceptedOk(env, k, k1);
    } else {
      RefusalsSnoc(k.hist.auths, yes);
      YesSnoc(k.hist.auths, yes);
      AuthRefusedOk(env, k, k1);
    }
  }

  lemma AuthRefusedOk(env: Env, k: Core, k1: Core)
    requires SvcInv(k) && k.state.StAuth?
    requires k1 == k.(hist := k.hist.(auths := k1.hist.auths)) && k.hist.auths <= k1.hist.auths
    requires Refusals(k1.hist.auths) == Refusals(k.hist.auths) + 1 && Yes(k1.hist.auths) == Yes(k.hist.auths)
    ensures var k2 := k1.(login := k1.login.(tries := k1.login.tries + 1));
      ServiceOk(env, k,
        if k2.login.tries >= MAX_AUTH_TRIES then Fail(env, k2, DISC_NO_MORE_AUTH, "too many failed attempts")
        else SendAuthFailure(env, k2))
  {
    hide SendPacket;
    hide SendAuthFailure;
    hide ServiceOk;
    var k2 := k1.(login := k1.login.(tries := k1.login.tries + 1));
    if k2.login.tries >= MAX_AUTH_TRIES {
      FifthRefusal(env, k, k2);
    } else {
      assert SvcInv(k2);
      AuthFailureOk(env, k2);
      AfterLogin(env, k, k2, SendAuthFailure(env, k2));
    }
  }

  lemma FifthRefusal(env: Env, k: Core, k2: Core)
    requires SvcInv(k) && k.state.StAuth? && LoginOnly(k, k2) && k2.state.StAuth?
    requires k2.login == k.login.(tries := MAX_AUTH_TRIES) && Refusals(k2.hist.auths) == MAX_AUTH_TRIES
    requires Yes(k2.hist.auths) == Yes(k.hist.auths)
    ensures ServiceOk(env, k, Fail(env, k2, DISC_NO_MORE_AUTH, "too many failed attempts"))
  {
    hide Fail;
    hide Chain;
    hide EpochsOk;
    hide TraceOf;
    var r := Fail(env, k2, DISC_NO_MORE_AUTH, "too many failed attempts");
    QuietFail(env, k2, DISC_NO_MORE_AUTH, "too many failed attempts");
  }

  lemma UserauthOk(env: Env, k: Core, p: seq<byte>)
    requires SvcInv(k) && !k.state.StClosed? && p != []
    ensures ServiceOk(env, k, OnUserauth(env, k, p))
  {
    hide SendPacket;
    hide SendAuthFailure;
    hide Fail;
    hide ServiceOk;
    hide ParseAuth;
    hide Authorize;
    hide SvcInv;
    FailOk(env, k, DISC_PROTOCOL_ERROR, "auth before kex");
    FailOk(env, k, DISC_PROTOCOL_ERROR, "bad USERAUTH_REQUEST");
    FailOk(env, k, DISC_PROTOCOL_ERROR, "unknown service");
    StayOk(env, k);
    if k.state.StAuth? {
      var a := ParseAuth(p);
      var user := if |a.user| >= 64 then a.user[..63] else a.user;
      var k1 := k.(login := k.login.(user := user));
      UserOnly(k, k1);
      AuthFailureOk(env, k1);
      AfterLogin(env, k, k1, SendAuthFailure(env, k1));
      var pass := RStr(RByte(a.rest).1).0;
      AuthorizeOk(env, k1, CStr(pass));
      AfterLogin(env, k, k1, Authorize(env, k1, CStr(pass)));
    }
  }

  lemma UserOnly(k: Core, k1: Core)
    requires SvcInv(k) && k1 == k.(login := k.login.(user := k1.login.user))
    ensures SvcInv(k1)
  {
  }

  lemma StayOk(env: Env, k: Core)
    requires SvcInv(k)
    ensures ServiceOk(env, k, Ret(k, true))
  {
    hide TraceOf;
    hide Chain;
    hide EpochsOk;
    hide SvcInv;
  }

  // ---- channel ----

  lemma GlobalRequestOk(env: Env, k: Core, p: seq<byte>)
    requires SvcInv(k) && !k.state.StClosed? && p != []
    ensures ServiceOk(env, k, OnGlobalRequest(env, k, p))
  {
    hide SendPacket;
    hide ServiceOk;
    hide SvcInv;
    hide RStr;
    StayOk(env, k);
    SendOk(env, k, [MSG_REQUEST_FAILURE]);
  }

  /** Only the channel, the ring and the flow counters. */
  predicate ChannelOnly(k: Core, k1: Core) {
    k1 == k.(chan := k1.chan, ring := k1.ring,
             hist := k.hist.(dataIn := k1.hist.dataIn, lost := k1.hist.lost,
                             granted := k1.hist.granted, wrapped := k1.hist.wrapped))
    && Inflow(k, k1)
  }

  lemma AfterChannel(env: Env, k: Core, k1: Core, r: Ret)
    requires ChannelOnly(k, k1) && ServiceOk(env, k1, r)
    ensures ServiceOk(env, k, r)
  {
    hide TraceOf;
    hide Chain;
    hide EpochsOk;
    hide AuthInv;
    hide OutflowInv;
  }

  lemma OpenKeeps(k: Core, sender: uint32, window: uint32, maxPkt: uint32)
    requires SvcInv(k) && k.state.StConn? && !k.chan.open
    ensures SvcInv(OpenChannel(k, sender, window, maxPkt)) && ChannelOnly(k, OpenChannel(k, sender, window, maxPkt))
  {
    hide TraceOf;
    hide Refusals;
    hide Yes;
  }

  lemma ChannelOpenOk(env: Env, k: Core, p: seq<byte>)
    requires SvcInv(k) && !k.state.StClosed? && p != []
    ensures ServiceOk(env, k, OnChannelOpen(env, k, p))
  {
    hide SendPacket;
    hide ServiceOk;
    hide Fail;
    hide SvcInv;
    hide RStr;
    hide RU32;
    hide PutU32;
    hide OpenChannel;
    FailOk(env, k, DISC_PROTOCOL_ERROR, "channel before auth");
    FailOk(env, k, DISC_PROTOCOL_ERROR, "bad CHANNEL_OPEN");
    if k.state.StConn? {
      var (kind, r1) := RStr(RInit(p[1..]));
      var (sender, r2) := RU32(r1);
      var (window, r3) := RU32(r2);
      var (maxPkt, r4) := RU32(r3);
      if kind == Ascii("session") && !k.chan.open {
        var k1 := OpenChannel(k, sender, window, maxPkt);
        var msg := [MSG_CHANNEL_OPEN_CONFIRM] + PutU32(sender) + PutU32(0) + PutU32(LOCAL_WINDOW) + PutU32(LOCAL_MAXPKT);
        OpenKeeps(k, sender, window, maxPkt);
        SendOk(env, k1, msg);
        AfterChannel(env, k, k1, SendPacket(env, k1, msg));
      } else {
        var why := if k.chan.open then "only one session per connection" else "unsupported channel type";
        SendOk(env, k, [MSG_CHANNEL_OPEN_FAILURE] + PutU32(sender) + PutU32(if k.chan.open then 4 else 3) + Str(Ascii(why)) + Str([]));
      }
    }
  }

  lemma EffectKeeps(k: Core, kind: seq<byte>, r: Cursor)
    requires SvcInv(k) && k.chan.open
    ensures var k1 := k.(chan := RequestEffect(k.chan, kind, r).0);
      SvcInv(k1) && ChannelOnly(k, k1)
  {
    hide SvcInv;
    hide RequestEffect;
    EffectIs(k.chan, kind, r);
    SizeKeeps(k, RequestEffect(k.chan, kind, r).0);
  }

  /** A request changes nothing but the size of the terminal and whether there is a shell. */
  predicate OnlySize(c: Chan, c': Chan) {
    c' == c.(cols := c'.cols, rows := c'.rows, shellReady := c'.shellReady) && (c.shellReady ==> c'.shellReady)
    && (HasSize(c) ==> HasSize(c'))
  }

  lemma EffectIs(c: Chan, kind: seq<byte>, r: Cursor)
    ensures OnlySize(c, RequestEffect(c, kind, r).0)
  {
    hide RStr;
    hide RU32;
    hide Ascii;
    hide Resize;
    ResizeIs(c, RU32(r).0, RU32(RU32(r).1).0);
    var r1 := RStr(r).1;
    ResizeIs(c, RU32(r1).0, RU32(RU32(r1).1).0);
  }

  lemma ResizeIs(c: Chan, cols: uint32, rows: uint32)
    ensures OnlySize(c, Resize(c, cols, rows))
  {
  }

  lemma SizeKeeps(k: Core, c: Chan)
    requires SvcInv(k) && k.chan.open && OnlySize(k.chan, c)
    ensures SvcInv(k.(chan := c)) && ChannelOnly(k, k.(chan := c))
  {
    hide TraceOf;
    hide Refusals;
    hide Yes;
  }

  lemma ReplyOk(env: Env, k: Core, msg: byte)
    requires SvcInv(k) && !k.state.StClosed? && msg >= 95
    ensures ServiceOk(env, k, SendChannelReply(env, k, msg))
  {
    hide SendPacket;
    hide ServiceOk;
    hide SvcInv;
    SendOk(env, k, [msg] + PutU32(k.chan.remote));
  }

  lemma ChannelRequestOk(env: Env, k: Core, p: seq<byte>)
    requires SvcInv(k) && !k.state.StClosed? && p != []
    ensures ServiceOk(env, k, OnChannelRequest(env, k, p))
  {
    hide SendChannelReply;
    hide ServiceOk;
    hide Fail;
    hide SvcInv;
    hide RStr;
    hide RU32;
    hide RByte;
    hide RequestEffect;
    FailOk(env, k, DISC_PROTOCOL_ERROR, "channel before auth");
    FailOk(env, k, DISC_PROTOCOL_ERROR, "bad CHANNEL_REQUEST");
    if k.chan.open {
      var (recipient, r1) := RU32(RInit(p[1..]));
      var (kind, r2) := RStr(r1);
      var (wantReply, r3) := RByte(r2);
      var (chan, granted) := RequestEffect(k.chan, kind, r3);
      EffectKeeps(k, kind, r3);
      var k1 := k.(chan := chan);
      StayOk(env, k1);
      ReplyOk(env, k1, MSG_CHANNEL_SUCCESS);
      ReplyOk(env, k1, MSG_CHANNEL_FAILURE);
      AfterChannel(env, k, k1, Ret(k1, true));
      AfterChannel(env, k, k1, SendChannelReply(env, k1, if granted then MSG_CHANNEL_SUCCESS else MSG_CHANNEL_FAILURE));
    }
  }

  lemma PushKeeps(k: Core, d: seq<byte>)
    requires SvcInv(k) && k.chan.open
    ensures SvcInv(Push(k, d)) && ChannelOnly(k, Push(k, d))
  {
    hide TraceOf;
    hide Refusals;
    hide Yes;
    var r := Push(k, d);
    if r.hist.lost == 0 {
      assert d[..|d|] == d;
      assert k.hist.dataRead + (k.ring + d) == (k.hist.dataRead + k.ring) + d;
    }
  }

  lemma ChannelDataOk(env: Env, k: Core, p: seq<byte>)
    requires SvcInv(k) && !k.state.StClosed? && p != []
    ensures ServiceOk(env, k, OnChannelData(env, k, p))
  {
    hide ServiceOk;
    hide Fail;
    hide SvcInv;
    hide RStr;
    hide RU32;
    hide Push;
    FailOk(env, k, DISC_PROTOCOL_ERROR, "bad channel");
    FailOk(env, k, DISC_PROTOCOL_ERROR, "bad CHANNEL_DATA");
    if k.chan.open {
      var d := RStr(RU32(RInit(p[1..])).1).0;
      PushKeeps(k, d);
      StayOk(env, Push(k, d));
      AfterChannel(env, k, Push(k, d), Ret(Push(k, d), true));
    }
  }

  lemma Low32Add(a: int, b: int)
    ensures Low32(Low32(a) + b) == Low32(a + b)
  {
  }

  lemma AdjustIsChannelOnly(k: Core, p: seq<byte>)
    requires AuthInv(k) && InflowInv(k) && p != []
    ensures var r := OnWindowAdjust(k, p);
      AuthInv(r.k) && InflowInv(r.k) && ChannelOnly(k, r.k) && r.ok
  {
    hide TraceOf;
    hide Refusals;
    hide Yes;
    hide RU32;
    hide Low32;
  }

  lemma AdjustKeeps(k: Core, p: seq<byte>)
    requires SvcInv(k) && p != []
    ensures SvcInv(OnWindowAdjust(k, p).k) && ChannelOnly(k, OnWindowAdjust(k, p).k) && OnWindowAdjust(k, p).ok
  {
    hide TraceOf;
    hide AuthInv;
    hide InflowInv;
    hide ChannelOnly;
    hide RU32;
    AdjustIsChannelOnly(k, p);
    var add := RU32(RU32(RInit(p[1..])).1).0;
    Low32Add(k.hist.granted - |TraceOf(k.hist.sent).data|, add);
  }

  lemma WindowAdjustOk(env: Env, k: Core, p: seq<byte>)
    requires SvcInv(k) && p != []
    ensures ServiceOk(env, k, OnWindowAdjust(k, p))
  {
    hide ServiceOk;
    hide SvcInv;
    hide OnWindowAdjust;
    AdjustKeeps(k, p);
    StayOk(env, OnWindowAdjust(k, p).k);
    AfterChannel(env, k, OnWindowAdjust(k, p).k, OnWindowAdjust(k, p));
  }

  lemma FlagsKeep(k: Core, chan: Chan)
    requires SvcInv(k) && chan == k.chan.(remoteEof := chan.remoteEof, closeSent := chan.closeSent, closeRecv := chan.closeRecv)
    ensures SvcInv(k.(chan := chan)) && ChannelOnly(k, k.(chan := chan))
  {
    hide TraceOf;
    hide Refusals;
    hide Yes;
  }

  lemma ChannelEofOk(env: Env, k: Core)
    requires SvcInv(k)
    ensures ServiceOk(env, k, Ret(k.(chan := k.chan.(remoteEof := true)), true))
  {
    hide ServiceOk;
    hide SvcInv;
    var k1 := k.(chan := k.chan.(remoteEof := true));
    FlagsKeep(k, k1.chan);
    StayOk(env, k1);
    AfterChannel(env, k, k1, Ret(k1, true));
  }

  lemma ChannelCloseOk(env: Env, k: Core)
    requires SvcInv(k) && !k.state.StClosed?
    ensures ServiceOk(env, k, OnChannelClose(env, k))
  {
    hide SendChannelReply;
    hide SvcInv;
    hide ServiceOk;
    var k1 := k.(chan := k.chan.(closeRecv := true));
    FlagsKeep(k, k1.chan);
    StayOk(env, k1);
    AfterChannel(env, k, k1, Ret(k1, true));
    var k2 := k1.(chan := k1.chan.(closeSent := true));
    FlagsKeep(k, k2.chan);
    var r := SendChannelReply(env, k2, MSG_CHANNEL_CLOSE);
    ReplyOk(env, k2, MSG_CHANNEL_CLOSE);
    AfterChannel(env, k, k2, r);
    IgnoreResult(env, k, r);
  }

  lemma IgnoreResult(env: Env, k: Core, r: Ret)
    requires ServiceOk(env, k, r)
    ensures ServiceOk(env, k, Ret(r.k, true))
  {
  }

  lemma OtherOk(env: Env, k: Core)
    requires SvcInv(k) && !k.state.StClosed?
    ensures ServiceOk(env, k, OnOther(env, k)) && Quiet(env, k, OnOther(env, k).k)
  {
    hide SendPacket;
    hide ServiceOk;
    hide SvcInv;
    hide Quiet;
    var msg := [MSG_UNIMPLEMENTED] + PutU32(Low32(k.inDir.seqNo - 1));
    SendOk(env, k, msg);
    QuietSend(env, k, msg);
  }

  lemma HandleServiceOk(env: Env, k: Core, p: seq<byte>)
    requires SvcInv(k) && !k.state.StClosed? && p != []
    ensures ServiceOk(env, k, HandleService(env, k, p))
  {
    hide SvcInv;
    hide ServiceOk;
    hide OnUserauth;
    hide OnGlobalRequest;
    hide OnChannelOpen;
    hide OnChannelRequest;
    hide OnChannelData;
    hide OnWindowAdjust;
    hide OnChannelClose;
    hide OnOther;
    hide Quiet;
    UserauthOk(env, k, p);
    GlobalRequestOk(env, k, p);
    ChannelOpenOk(env, k, p);
    ChannelRequestOk(env, k, p);
    ChannelDataOk(env, k, p);
    WindowAdjustOk(env, k, p);
    ChannelEofOk(env, k);
    ChannelCloseOk(env, k);
    OtherOk(env, k);
    StayOk(env, k);
  }
}
