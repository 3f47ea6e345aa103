/** The calls a program makes on a connection. Whatever sequence of calls is made, the connection is at the end of one of the
    runs of Connection, so that everything proved about runs holds between calls. Every wait ends, every call reads until the
    transport has nothing more, and none gives up before its time. */
module Api {
  import opened Bytes
  import opened Wire
  import opened Environment
  import opened RecordLayer
  import opened KeySchedule
  import opened Session
  import opened SessionFrames
  import opened ServiceInvariants
  import opened Connection
  import opened Runs
  import opened SessionTheorems
  import opened Fragmentation
  import opened Runtime
  import opened Transport
  import opened Messages
  import opened Server
  import T = Transcript

  const ACCEPT_TIMEOUT_MS: nat := 120000
  const WRITE_TIMEOUT_MS: nat := 30000
  const CLOSE_TIMEOUT_MS: nat := 2000
  const SERVER_LINE := SERVER_VERSION + [CR, LF]

  /** The connection is where the log of what happened to it leads, and the bytes in that log are the transport's so far,
      each once and in order. */
  ghost predicate InRun(c: SshConn, io: Io)
    reads c, c.rx, c.inRing, io`log, io`marks, io`script
  {
    c.Valid() && c.RingOk() && c.View() == Run(c.env, io.log) && Accounted(io, []) && |io.marks| == |io.log|
  }

  /** Every byte delivered is in the log, or in hand. */
  ghost predicate Accounted(io: Io, inHand: seq<byte>)
    reads io`log, io`script
  {
    Arrived(io.log) + (inHand + BytesOf(io.script)) == io.stream
  }

  method SshNew(env: Env, script: seq<Read>) returns (c: SshConn, io: Io)
    ensures InRun(c, io) && fresh(c) && fresh(io) && c.env == env && io.Past() == Record(script, [], [], 0, [])
  {
    hide Run;
    c := new SshConn(env);
    io := new Io(script);
    Beginning(env, io.stream);
  }

  lemma Marked(c: SshConn, io: Io)
    requires InRun(c, io)
    ensures |io.marks| == |io.log|
  {
  }

  lemma Beginning(env: Env, stream: seq<byte>)
    ensures Run(env, []) == FRESH && Arrived([]) + ([] + stream) == stream
  {
  }

  lemma RunSnoc(env: Env, log: seq<Event>, e: Event)
    ensures Run(env, log + [e]) == Apply(env, Run(env, log), e)
    ensures Arrived(log + [e]) == Arrived(log) + (if e.Input? then e.data else [])
  {
    hide Apply;
    assert (log + [e])[..|log|] == log;
  }

  /** What each event does, in the terms of the session. */
  lemma AppliedIs(env: Env, c: Conn, e: Event)
    requires ConnOk(c)
    ensures var c1 := Apply(env, c, e);
      match e
      case Input(d) => c1 == Feed(env, c, d)
      case TransportLost => c1 == c.(core := c.core.(state := StClosed))
      case VersionOut => c1 == c.(core := SendVersion(env, c.core))
      case ReadCall(max) => c1 == c.(core := ReadRing(env, c.core, max))
      case WriteCall(d) => c1 == c.(core := WriteChunk(env, c.core, d).k)
      case CloseCall(s) => c1 == c.(core := CloseChannel(env, c.core, s))
      case GiveUp(timeout) => c1 == c.(core := Session.Disconnect(env, c.core, DISC_BY_APPLICATION, GiveUpNote(timeout)))
  {
    hide Feed;
    hide SendVersion;
    hide ReadRing;
    hide WriteChunk;
    hide CloseChannel;
    hide Session.Disconnect;
  }

  /** Something has happened; the connection has done what it does then. */
  ghost method Happened(c: SshConn, io: Io, e: Event)
    requires c.Valid() && c.RingOk() && c.View() == Apply(c.env, Run(c.env, io.log), e)
    requires Accounted(io, if e.Input? then e.data else []) && |io.marks| == |io.log|
    modifies io`log, io`marks
    ensures InRun(c, io) && io.Past() == Noted(old(io.Past()), e)
  {
    hide Run;
    hide Apply;
    hide Arrived;
    hide BytesOf;
    RunSnoc(c.env, io.log, e);
    assert [] + BytesOf(io.script) == BytesOf(io.script);
    Associates(Arrived(io.log), if e.Input? then e.data else [], BytesOf(io.script));
    io.log, io.marks := io.log + [e], io.marks + [Mark(io.stalls, |io.clock|)];
  }

  /** What one read of at most room bytes finds. */
  method NextRead(io: Io, room: nat) returns (gone: bool, d: seq<byte>)
    requires room > 0 && Accounted(io, [])
    modifies io`script
    ensures |d| <= room && (gone ==> d == []) && Accounted(io, d)
    ensures Left(io.script) <= Left(old(io.script)) && (d != [] ==> Left(io.script) < Left(old(io.script)))
    ensures Later(old(io.script), io.script) && (!gone && d == [] ==> Dry(old(io.script), io.script))
    ensures Gones(old(io.script)) == Gones(io.script) + if gone then 1 else 0
  {
    hide Arrived;
    hide BytesOf;
    hide Left;
    hide Gones;
    hide Later;
    hide Dry;
    gone, d := false, [];
    if io.script == [] {
      NothingThere();
      return;
    }
    var first, rest := io.script[0], io.script[1..];
    if first.Chunk? {
      d := if |first.data| <= room then first.data else first.data[..room];
      var more := first.data[|d|..];
      io.script := if more == [] then rest else [Chunk(more)] + rest;
      CutChunk(old(io.script), d, io.script);
      Regroup(Arrived(io.log), d, BytesOf(io.script));
    } else {
      io.script := rest;
      gone := first.Gone?;
      PassOver(old(io.script));
    }
  }

  lemma NothingThere()
    ensures Later([], []) && Dry([], [])
  {
  }

  lemma PassOver(script: seq<Read>)
    requires script != [] && !script[0].Chunk?
    ensures var rest := script[1..];
      && BytesOf(script) == BytesOf(rest) && Gones(script) == Gones(rest) + (if script[0].Gone? then 1 else 0)
      && Left(rest) <= Left(script) && Later(script, rest) && (script[0].Nothing? ==> Dry(script, rest))
  {
    hide Left;
    var rest := script[1..];
    assert [] + BytesOf(rest) == BytesOf(rest);
    OneLess(script);
    assert rest != [] ==> rest[1..] == script[2..] && rest[0] == script[1];
  }

  lemma OneLess(script: seq<Read>)
    requires script != []
    ensures Left(script[1..]) <= Left(script)
  {
  }

  lemma Regroup(a: seq<byte>, b: seq<byte>, c: seq<byte>)
    ensures a + ([] + (b + c)) == a + (b + c)
  {
    assert [] + (b + c) == b + c;
  }

  /** A chunk at the front, taken or begun. */
  lemma CutChunk(script: seq<Read>, d: seq<byte>, after: seq<Read>)
    requires script != [] && script[0].Chunk? && d <= script[0].data && (d == [] ==> script[0].data == [])
    requires var more := script[0].data[|d|..];
      after == if more == [] then script[1..] else [Chunk(more)] + script[1..]
    ensures BytesOf(script) == d + BytesOf(after) && Gones(after) == Gones(script)
    ensures Left(after) <= Left(script) && (d != [] ==> Left(after) < Left(script))
    ensures Later(script, after) && (d == [] ==> Dry(script, after))
  {
    var data, rest := script[0].data, script[1..];
    var more := data[|d|..];
    assert data == d + more;
    if more == [] {
      assert data == d;
    } else {
      assert after[1..] == rest && after[0] == Chunk(more);
      Associates(d, more, BytesOf(rest));
    }
  }

  /** One read into what is free of the buffer. */
  method Receive(c: SshConn, io: Io) returns (n: int, ghost d: seq<byte>)
    requires c.Valid() && c.rxLen < RX_BUF && Accounted(io, [])
    modifies io`script, c`rxLen, c.rx
    ensures -1 <= n && |d| == (if n < 0 then 0 else n) && Accounted(io, d)
    ensures c.rx[..c.rxLen] == old(c.rx[..c.rxLen]) + d
    ensures Left(io.script) <= Left(old(io.script))
    ensures n > 0 ==> Left(io.script) < Left(old(io.script))
    ensures Later(old(io.script), io.script) && (n == 0 ==> Dry(old(io.script), io.script))
    ensures Gones(old(io.script)) == Gones(io.script) + if n < 0 then 1 else 0
  {
    hide Accounted;
    hide Later;
    hide Dry;
    var gone, data := NextRead(io, RX_BUF - c.rxLen);
    d := data;
    ghost var was := c.rx[..];
    MemCpy(c.rx, c.rxLen, data);
    c.rxLen := c.rxLen + |data|;
    n := if gone then -1 else |data|;
    assert was[..c.rxLen - |data|] == old(c.rx[..c.rxLen]);
  }

  /** The inner loop: packets until there are none left. */
  method Packets(c: SshConn) returns (open: bool, any: bool)
    requires c.Valid() && c.RingOk() && ConnOk(c.View()) && Good(c.env, c.Abs()) && !c.state.StClosed?
    modifies c, c.rx, c.tx, c.pl, c.inRing
    ensures c.RingOk() && c.View() == Drain(c.env, old(c.View()))
    ensures open == !c.state.StClosed? && (open ==> Idle(c.env, c.View()))
    ensures c.rxLen <= old(c.rxLen) && (open && any ==> c.rxLen < old(c.rxLen)) && (open && !any ==> c.rxLen == old(c.rxLen))
  {
    hide Good;
    hide TryOne;
    hide Drain;
    hide Idle;
    hide SshConn.RingOk;
    any := false;
    while true
      invariant c.RingOk() && ConnOk(c.View()) && Good(c.env, c.Abs())
      invariant Drain(c.env, c.View()) == Drain(c.env, old(c.View()))
      invariant c.rxLen <= old(c.rxLen) && (any ==> c.rxLen < old(c.rxLen)) && (!any ==> c.rxLen == old(c.rxLen))
      decreases c.rxLen
    {
      ghost var before := c.View();
      var r := c.TryProcessOne();
      Tried(c.env, before);
      if r < 0 {
        return false, any;
      }
      if r == 0 {
        return true, any;
      }
      any := true;
    }
  }

  /** No packet can be taken, and trying changes nothing. */
  ghost predicate Idle(env: Env, c: Conn) {
    ConnOk(c) && TryOne(env, c) == (c, 0)
  }

  /** A try that found too little has left nothing for another to do. */
  lemma TriedIsIdle(env: Env, c: Conn)
    requires ConnOk(c) && TryOne(env, c).1 == 0
    ensures Idle(env, TryOne(env, c).0)
  {
    hide VersionLine;
    hide Packet;
    assert Plus(c, []) == c;
    var c1 := TryOne(env, c).0;
    assert Plus(c1, []) == c1;
    if c.core.state.StVersion? {
      NotYet(env, c);
    } else {
      PacketMore(env, c, []);
    }
  }

  lemma Tried(env: Env, c: Conn)
    requires ConnOk(c) && Good(env, c.core)
    ensures var (c1, r) := TryOne(env, c);
      && Good(env, c1.core) && -1 <= r <= 1 && (r < 0 <==> c1.core.state.StClosed?)
      && |c1.buf| <= |c.buf| && (r == 0 ==> |c1.buf| == |c.buf| && Idle(env, c1))
      && Drain(env, c) == if r == 1 then Drain(env, c1) else c1
  {
    hide Good;
    hide TryOne;
    hide Forward;
    hide Idle;
    TryOneOk(env, c);
    TryOneResult(env, c);
    TryOneKeepsLength(env, c);
    if TryOne(env, c).1 == 0 {
      TriedIsIdle(env, c);
    }
  }

  lemma TryOneKeepsLength(env: Env, c: Conn)
    requires ConnOk(c)
    ensures |TryOne(env, c).0.buf| <= |c.buf|
    ensures TryOne(env, c).1 == 0 ==> |TryOne(env, c).0.buf| == |c.buf|
  {
    hide RxHead;
    hide RxBody;
    hide Deliver;
    hide Disconnect;
    hide TakeVersion;
    hide LfAt;
    hide IsSshLine;
    hide IsSsh2;
  }

  // ---- ProcessInput ----

  /** What has been read is handled, and that is what has happened. */
  method TakeIn(c: SshConn, io: Io, ghost d: seq<byte>, ghost start: Conn) returns (open: bool, any: bool)
    requires c.Valid() && c.RingOk() && ConnOk(start) && c.View() == start.(buf := start.buf + d) && !c.state.StClosed?
    requires start == Run(c.env, io.log) && Accounted(io, d) && |io.marks| == |io.log|
    modifies c, c.rx, c.tx, c.pl, c.inRing, io`log, io`marks
    ensures InRun(c, io) && io.Past() == Noted(old(io.Past()), Input(d)) && Forward(start.core, c.Abs())
    ensures open == !c.state.StClosed? && (open ==> Idle(c.env, c.View()))
    ensures c.rxLen <= old(c.rxLen) && (open && any ==> c.rxLen < old(c.rxLen)) && (open && !any ==> c.rxLen == old(c.rxLen))
  {
    hide Apply;
    hide Feed;
    hide SendVersion;
    hide ReadRing;
    hide WriteChunk;
    hide CloseChannel;
    hide Session.Disconnect;
    hide Good;
    hide Drain;
    hide Forward;
    hide Run;
    hide Accounted;
    hide Idle;
    hide SshConn.RingOk;
    RunOk(c.env, io.log);
    InputOk(c.env, start, d);
    open, any := Packets(c);
    FedNow(c.env, start, d);
    AppliedIs(c.env, start, Input(d));
    Happened(c, io, Input(d));
  }

  /** One round of the outer loop. */
  method Round(c: SshConn, io: Io) returns (r: int)
    requires InRun(c, io) && !c.state.StClosed?
    modifies c, c.rx, c.tx, c.pl, c.inRing, io`script, io`log, io`marks
    ensures InRun(c, io) && Forward(old(c.Abs()), c.Abs())
    ensures -1 <= r <= 1 && (r < 0 <==> c.state.StClosed?)
    ensures Left(io.script) <= Left(old(io.script))
    ensures r == 1 ==> Left(io.script) < Left(old(io.script)) || c.rxLen < old(c.rxLen)
    ensures r == 0 ==> c.rxLen == old(c.rxLen) && Idle(c.env, c.View()) && Dry(old(io.script), io.script)
    ensures r == 0 ==> io.log == old(io.log) + [Input([])]
    ensures Story(old(io.Past()), io.Past(), {})
  {
    hide Good;
    hide Feed;
    hide Forward;
    hide Run;
    hide Accounted;
    hide Idle;
    hide Later;
    hide Dry;
    hide Story;
    ghost var past := io.Past();
    ghost var start := c.View();
    RunOk(c.env, io.log);
    var n, d := Receive(c, io);
    if n < 0 {
      Lose(c, io);
      StoryStep(past, io.Past(), TransportLost, {});
      LostForward(c.env, start.core);
      return -1;
    }
    var open, any := TakeIn(c, io, d, start);
    StoryStep(past, io.Past(), Input(d), {});
    r := if !open then -1 else if n > 0 || any then 1 else 0;
  }

  lemma FedNow(env: Env, c: Conn, d: seq<byte>)
    requires ConnOk(c) && !c.core.state.StClosed?
    ensures Feed(env, c, d) == Drain(env, c.(buf := c.buf + d))
  {
    hide Drain;
  }

  method Lose(c: SshConn, io: Io)
    requires InRun(c, io)
    modifies c`state, io`log, io`marks
    ensures InRun(c, io) && c.Abs() == old(c.Abs()).(state := StClosed)
    ensures io.Past() == Noted(old(io.Past()), TransportLost)
  {
    hide Apply;
    hide Feed;
    hide SendVersion;
    hide ReadRing;
    hide WriteChunk;
    hide CloseChannel;
    hide Session.Disconnect;
    hide Run;
    hide Accounted;
    c.state := StClosed;
    AppliedIs(c.env, Run(c.env, io.log), TransportLost);
    Happened(c, io, TransportLost);
  }

  lemma LostForward(env: Env, k: Core)
    requires Good(env, k)
    ensures Forward(k, k.(state := StClosed))
  {
    hide TraceOf;
    hide SvcInv;
    hide OutOk;
    hide K.KexInv;
  }

  /** Reads until a read finds nothing and no packet is left, or the connection is closed by what it read. */
  method ProcessInput(c: SshConn, io: Io) returns (r: int, progressed: bool)
    requires InRun(c, io)
    modifies c, c.rx, c.tx, c.pl, c.inRing, io`script, io`log, io`marks
    ensures InRun(c, io) && Forward(old(c.Abs()), c.Abs())
    ensures r == if c.state.StClosed? then -1 else 0
    ensures r == 0 ==> Idle(c.env, c.View()) && Dry(old(io.script), io.script)
    ensures Story(old(io.Past()), io.Past(), {})
    ensures Left(io.script) < Left(old(io.script)) || (Left(io.script) == Left(old(io.script)) && (r == 0 ==> c.rxLen <= old(c.rxLen)))
    ensures r == 0 && progressed ==> Left(io.script) < Left(old(io.script)) || c.rxLen < old(c.rxLen)
    ensures r == 0 && !progressed ==> c.rxLen == old(c.rxLen) && io.log == old(io.log) + [Input([])]
  {
    hide InRun;
    hide SshConn.Abs;
    hide Forward;
    hide Idle;
    hide Later;
    hide Dry;
    hide Story;
    progressed := false;
    ForwardSelf(c, io);
    ghost var past := io.Past();
    Marked(c, io);
    StorySelf(past, past, {});
    while true
      invariant InRun(c, io) && Forward(old(c.Abs()), c.Abs()) && Story(past, io.Past(), {})
      invariant Left(io.script) < Left(old(io.script)) || (Left(io.script) == Left(old(io.script)) && c.rxLen <= old(c.rxLen))
      invariant progressed ==> Left(io.script) < Left(old(io.script)) || c.rxLen < old(c.rxLen)
      invariant !progressed ==> c.rxLen == old(c.rxLen) && io.log == old(io.log)
      decreases Left(io.script), c.rxLen
    {
      if c.state.StClosed? {
        return -1, progressed;
      }
      ghost var k, mid := c.Abs(), io.Past();
      var any := Round(c, io);
      ForwardAll(c, io, old(c.Abs()), k);
      StoryOn(past, mid, io.Past(), {}, {}, {});
      if any < 0 {
        return -1, progressed;
      }
      if any == 0 {
        StoryDry(past, mid, io.Past(), {});
        return 0, progressed;
      }
      progressed := true;
    }
  }

  lemma ForwardSelf(c: SshConn, io: Io)
    requires InRun(c, io)
    ensures Forward(c.Abs(), c.Abs())
  {
    hide TraceOf;
    hide Run;
    hide Accounted;
  }

  lemma ForwardAll(c: SshConn, io: Io, k0: Core, k: Core)
    requires InRun(c, io) && Forward(k0, k) && Forward(k, c.Abs())
    ensures Forward(k0, c.Abs())
  {
    hide Forward;
    hide Run;
    hide Accounted;
    hide OutOk;
    hide InflowInv;
    RunOk(c.env, io.log);
    ForwardTransitive(k0, k, c.Abs());
  }

  method SshPoll(c: SshConn, io: Io) returns (r: int)
    requires InRun(c, io)
    modifies c, c.rx, c.tx, c.pl, c.inRing, io`script, io`log, io`marks
    ensures InRun(c, io) && Forward(old(c.Abs()), c.Abs())
    ensures r == if c.state.StClosed? then -1 else 0
    ensures r == 0 ==> Idle(c.env, c.View()) && Dry(old(io.script), io.script)
    ensures Story(old(io.Past()), io.Past(), {})
  {
    hide InRun;
    hide Forward;
    hide Idle;
    hide Dry;
    hide Story;
    var prog;
    r, prog := ProcessInput(c, io);
  }

  // ---- SshAccept ----

  method VersionLineOut(c: SshConn) returns (ok: bool)
    requires c.Valid() && !c.versionSent
    modifies c`writes, c`state, c`versionSent
    ensures c.Abs() == SendVersion(c.env, old(c.Abs())) && (!ok ==> c.state.StClosed?)
  {
    hide WriteOk;
    ok := c.WriteLine(SERVER_LINE);
    if ok {
      c.versionSent := true;
    }
  }

  method SendVersionLine(c: SshConn, io: Io) returns (ok: bool)
    requires InRun(c, io) && !c.versionSent
    modifies c, io`log, io`marks
    ensures InRun(c, io) && (!ok ==> c.state.StClosed?)
    ensures io.Past() == Noted(old(io.Past()), VersionOut)
  {
    hide Apply;
    hide Feed;
    hide SendVersion;
    hide ReadRing;
    hide WriteChunk;
    hide CloseChannel;
    hide Session.Disconnect;
    hide Run;
    hide Accounted;
    ok := VersionLineOut(c);
    AppliedIs(c.env, Run(c.env, io.log), VersionOut);
    Happened(c, io, VersionOut);
  }

  method GiveUpCall(c: SshConn, io: Io, timeout: bool)
    requires InRun(c, io)
    modifies c, c.tx, c.pl, io`log, io`marks
    ensures InRun(c, io) && c.Abs() == Session.Disconnect(c.env, old(c.Abs()), DISC_BY_APPLICATION, GiveUpNote(timeout))
    ensures io.Past() == Noted(old(io.Past()), GiveUp(timeout))
  {
    hide Apply;
    hide Feed;
    hide SendVersion;
    hide ReadRing;
    hide WriteChunk;
    hide CloseChannel;
    hide Session.Disconnect;
    hide Run;
    hide Accounted;
    c.Disconnect(DISC_BY_APPLICATION, GiveUpNote(timeout));
    AppliedIs(c.env, Run(c.env, io.log), GiveUp(timeout));
    Happened(c, io, GiveUp(timeout));
  }

  /** A client may be turned away only when the time since it was last heard is spent and there is nothing more to read. */
  ghost function TimeoutCall(a: Record, b: Record): set<Event> {
    if Spent(Since(OnBytes, a, b), b, 120000) && Dry(a.script, b.script) then {GiveUp(true)} else {}
  }

  /** Returns 0 only once a shell is granted, on an open connection, to a client whose password the callback has
      accepted; otherwise the connection is closed. It closes it itself only when the time since the last byte is spent
      without a byte more to read. It returns whatever the peer does. */
  method SshAccept(c: SshConn, io: Io) returns (r: int)
    requires InRun(c, io)
    modifies c, c.rx, c.tx, c.pl, c.inRing, io
    ensures InRun(c, io)
    ensures r == if c.state.StClosed? then -1 else 0
    ensures r == 0 ==> c.chan.shellReady && c.chan.open && c.login.authenticated && true in c.hist.auths
    ensures !old(c.versionSent) ==> old(io.log) + [VersionOut] <= io.log
    ensures Story(old(io.Past()), io.Past(),
      (if old(c.versionSent) then {} else {VersionOut}) + TimeoutCall(old(io.Past()), io.Past()))
  {
    hide InRun;
    hide Forward;
    hide Idle;
    hide Dry;
    hide Story;
    hide Spent;
    ghost var past, calls := io.Past(), if c.versionSent then {} else {VersionOut};
    hide Since;
    var start := io.Now();
    ghost var since := |io.clock| - 1;
    Marked(c, io);
    StorySelf(past, io.Past(), {});
    SinceStart(OnBytes, past, io.Past());
    if !c.versionSent {
      ghost var mid := io.Past();
      var ok := SendVersionLine(c, io);
      StoryCall(past, mid, VersionOut, {}, calls);
      SinceNoted(OnBytes, past, mid, VersionOut, {});
      if !ok {
        StoryMore(past, io.Past(), calls, calls + TimeoutCall(past, io.Past()));
        return -1;
      }
    }
    r := AwaitShell(c, io, start, since, past, calls);
  }

  /** The wait for the shell, given what has happened before. */
  method AwaitShell(c: SshConn, io: Io, start: nat, ghost since: nat, ghost past: Record, ghost calls: set<Event>) returns (r: int)
    requires InRun(c, io) && Story(past, io.Past(), calls)
    requires Since(OnBytes, past, io.Past()).ticks <= since < |io.clock| && io.clock[since] == start
    modifies c, c.rx, c.tx, c.pl, c.inRing, io
    ensures InRun(c, io)
    ensures r == if c.state.StClosed? then -1 else 0
    ensures r == 0 ==> c.chan.shellReady && c.chan.open && c.login.authenticated && true in c.hist.auths
    ensures old(io.log) <= io.log
    ensures Story(past, io.Past(), calls + TimeoutCall(past, io.Past()))
  {
    hide InRun;
    hide SshConn.Abs;
    hide Forward;
    hide Idle;
    hide Dry;
    hide Later;
    hide Explained;
    hide Spent;
    hide Since;
    var idle := 0;
    var from := start;
    ghost var at := since;
    SinceBetween(OnBytes, past, io.Past(), calls);
    while !c.state.StClosed?
      invariant InRun(c, io) && idle < SpinLimit(SPIN_US, ACCEPT_TIMEOUT_MS) && Story(past, io.Past(), calls) && old(io.log) <= io.log
      invariant Since(OnBytes, past, io.Past()).stalls + idle <= io.stalls
      invariant Since(OnBytes, past, io.Past()).ticks <= at < |io.clock| && io.clock[at] == from
      decreases Left(io.script), c.rxLen, SpinLimit(SPIN_US, ACCEPT_TIMEOUT_MS) - idle
    {
      ghost var mid := io.Past();
      var p, prog := ProcessInput(c, io);
      StoryOn(past, mid, io.Past(), calls, {}, calls);
      if p < 0 {
        break;
      }
      if c.chan.shellReady {
        Admitted(c, io);
        StoryMore(past, io.Past(), calls, calls + TimeoutCall(past, io.Past()));
        return 0;
      }
      ghost var heard := io.Past();
      if prog {
        idle := 0;
        from := io.Now();
        at := |io.clock| - 1;
        SinceBetween(OnBytes, past, heard, calls);
        StoryWaits(past, heard, io.Past(), calls);
      } else {
        StoryDry(past, mid, heard, calls);
        NothingHeard(past, mid, heard, calls);
        var out := WaitMore(io, from, idle, ACCEPT_TIMEOUT_MS, at, Since(OnBytes, past, heard));
        idle := idle + 1;
        StoryWaits(past, heard, io.Past(), calls);
        if out {
          TimeOut(c, io, past, calls);
          return -1;
        }
      }
    }
    StoryMore(past, io.Past(), calls, calls + TimeoutCall(past, io.Past()));
    r := -1;
  }

  lemma NothingHeard(a: Record, b: Record, c: Record, calls: set<Event>)
    requires Story(a, b, calls) && Story(b, c, {}) && c.log == b.log + [Input([])]
    ensures Since(OnBytes, a, c) == Since(OnBytes, a, b)
  {
    hide Story;
    SinceKept(OnBytes, a, b, c, calls, {});
  }

  method TimeOut(c: SshConn, io: Io, ghost past: Record, ghost calls: set<Event>)
    requires InRun(c, io) && Story(past, io.Past(), calls)
    requires Spent(Since(OnBytes, past, io.Past()), io.Past(), ACCEPT_TIMEOUT_MS) && Dry(past.script, io.script)
    modifies c, c.tx, c.pl, io`log, io`marks
    ensures InRun(c, io) && c.state.StClosed?
    ensures old(io.log) <= io.log
    ensures Story(past, io.Past(), calls + TimeoutCall(past, io.Past()))
  {
    hide InRun;
    hide Story;
    hide Dry;
    hide Late;
    hide Since;
    ghost var mid := io.Past();
    GiveUpCall(c, io, true);
    SinceNoted(OnBytes, past, mid, GiveUp(true), calls);
    StoryCall(past, mid, GiveUp(true), calls, calls + TimeoutCall(past, io.Past()));
  }

  lemma Admitted(c: SshConn, io: Io)
    requires InRun(c, io)
    ensures c.chan.shellReady ==> c.chan.open && c.login.authenticated && true in c.hist.auths
  {
    hide Run;
    hide Accounted;
    SessionSafety(c.env, io.log);
  }

  // ---- SshRead ----

  /** Out of the ring into the caller's buffer, byte by byte. */
  method TakeBytes(c: SshConn, buf: array<byte>, max: nat) returns (n: nat)
    requires c.Valid() && c.RingOk() && max <= buf.Length && buf != c.inRing
    modifies c`inTail, c`waiting, buf
    ensures c.RingOk()
    ensures n == (if max <= |old(c.waiting)| then max else |old(c.waiting)|)
    ensures buf[..n] == old(c.waiting)[..n] && c.waiting == old(c.waiting)[n..]
    ensures buf[n..] == old(buf[..])[n..]
  {
    hide SshConn.RingOk;
    n := 0;
    RingNotEmpty(c);
    while n < max && c.inHead != c.inTail
      invariant c.RingOk() && n <= max && n <= |old(c.waiting)| && (c.inHead == c.inTail <==> c.waiting == [])
      invariant c.waiting == old(c.waiting)[n..] && buf[..n] == old(c.waiting)[..n]
      invariant buf[n..] == old(buf[..])[n..]
    {
      TakeByte(c, buf, n, old(c.waiting), old(buf[..]));
      n := n + 1;
    }
  }

  method TakeByte(c: SshConn, buf: array<byte>, n: nat, ghost before: seq<byte>, ghost was: seq<byte>)
    requires c.Valid() && c.RingOk() && n < buf.Length == |was| && buf != c.inRing && c.waiting != []
    requires n <= |before| && c.waiting == before[n..] && buf[..n] == before[..n] && buf[n..] == was[n..]
    modifies c`inTail, c`waiting, buf
    ensures c.RingOk() && (c.inHead == c.inTail <==> c.waiting == [])
    ensures c.waiting == before[n + 1..] && buf[..n + 1] == before[..n + 1] && buf[n + 1..] == was[n + 1..]
  {
    hide SshConn.RingOk;
    ghost var old_ := buf[..];
    buf[n] := c.RingTake();
    RingNotEmpty(c);
    OneByte(old_, buf[..], n, before, was);
  }

  lemma OneByte(b: seq<byte>, b': seq<byte>, n: nat, before: seq<byte>, was: seq<byte>)
    requires n < |b| == |was| && n < |before| && b' == b[n := before[n]]
    requires b[..n] == before[..n] && b[n..] == was[n..]
    ensures b'[..n + 1] == before[..n + 1] && b'[n + 1..] == was[n + 1..]
  {
    assert b'[..n + 1] == b[..n] + [before[n]];
    assert b'[n + 1..] == b[n..][1..] && was[n + 1..] == was[n..][1..];
  }

  lemma RingNotEmpty(c: SshConn)
    requires c.Valid() && c.RingOk()
    ensures c.inHead == c.inTail <==> c.waiting == []
  {
  }

  method PayBack(c: SshConn)
    requires c.Valid()
    modifies c`state, c`drawn, c`outDir, c`writes, c`hist, c`consumed, c.tx, c.pl
    ensures c.Abs() == (var k := old(c.Abs());
      if k.consumed >= LOCAL_WINDOW / 2 && Session.CanSendNow(k) then
        var r := SendPacket(c.env, k, WindowAdjustMsg(k));
        if r.ok then r.k.(consumed := 0) else r.k
      else k)
    ensures old(c.state).StClosed? ==> c.state.StClosed?
  {
    hide SendPacket;
    if c.consumed >= LOCAL_WINDOW / 2 && c.CanSendNow() {
      var n := WriteAdjust(c.pl, c.chan.remote, c.consumed);
      var ok := c.SendPacket(c.pl[..n]);
      if ok {
        c.consumed := 0;
      }
    }
  }

  method TakeAndCount(c: SshConn, buf: array<byte>, max: nat) returns (n: nat)
    requires c.Valid() && c.RingOk() && max <= buf.Length && buf !in {c.rx, c.tx, c.pl, c.inRing}
    modifies c`inTail, c`waiting, c`consumed, c`hist, buf
    ensures c.RingOk() && n <= max && buf[n..] == old(buf[..])[n..]
    ensures n == Taken(old(c.Abs()), max) && buf[..n] == old(c.waiting)[..n]
    ensures c.Abs() == TakeRing(old(c.Abs()), n)
  {
    hide SshConn.RingOk;
    ghost var before := c.waiting;
    n := TakeBytes(c, buf, max);
    Consume(c, n, buf[..n], before);
  }

  lemma ReadIs(env: Env, k: Core, max: nat)
    requires k.ring != []
    ensures var k1 := TakeRing(k, Taken(k, max));
      ReadRing(env, k, max) ==
        if k1.consumed >= LOCAL_WINDOW / 2 && CanSendNow(k1) then
          var r := SendPacket(env, k1, WindowAdjustMsg(k1));
          if r.ok then r.k.(consumed := 0) else r.k
        else k1
  {
    hide SendPacket;
    hide WindowAdjustMsg;
    hide TakeRing;
  }

  method FinishRead(c: SshConn, io: Io, max: nat, ghost k: Core)
    requires c.Valid() && c.RingOk() && k.ring != [] && c.Abs() == TakeRing(k, Taken(k, max))
    requires Run(c.env, io.log) == Conn(k, c.rx[..c.rxLen], c.rxHaveLen, c.rxPktLen) && Accounted(io, []) && |io.marks| == |io.log|
    modifies c, c.tx, c.pl, io`log, io`marks
    ensures InRun(c, io) && c.hist.dataRead == old(c.hist.dataRead) && c.waiting == old(c.waiting)
    ensures (old(c.state).StClosed? ==> c.state.StClosed?) && io.Past() == Noted(old(io.Past()), ReadCall(max))
  {
    hide Apply;
    hide SshConn.RingOk;
    hide Taken;
    hide Feed;
    hide SendVersion;
    hide ReadRing;
    hide WriteChunk;
    hide CloseChannel;
    hide Session.Disconnect;
    hide Run;
    hide Accounted;
    hide SendPacket;
    hide WindowAdjustMsg;
    hide TakeRing;
    PayBack(c);
    ReadIs(c.env, k, max);
    AppliedIs(c.env, Run(c.env, io.log), ReadCall(max));
    Happened(c, io, ReadCall(max));
  }

  method ReadOut(c: SshConn, io: Io, buf: array<byte>, max: nat) returns (n: nat)
    requires InRun(c, io) && c.waiting != [] && max <= buf.Length && buf !in {c.rx, c.tx, c.pl, c.inRing}
    modifies c, c.tx, c.pl, io`log, io`marks, buf
    ensures InRun(c, io)
    ensures n <= max && buf[n..] == old(buf[..])[n..]
    ensures n == Taken(old(c.Abs()), max)
    ensures c.hist.dataRead == old(c.hist.dataRead) + buf[..n] && c.waiting == old(c.waiting)[n..]
    ensures (old(c.state).StClosed? ==> c.state.StClosed?) && io.Past() == Noted(old(io.Past()), ReadCall(max))
  {
    hide Run;
    hide Accounted;
    hide Taken;
    ghost var k := c.Abs();
    n := TakeAndCount(c, buf, max);
    FinishRead(c, io, max, k);
  }

  /** What has left the ring is owed to the client's window. */
  method Consume(c: SshConn, n: nat, ghost taken: seq<byte>, ghost before: seq<byte>)
    requires c.Valid() && n <= |before| && taken == before[..n] && c.waiting == before[n..]
    modifies c`consumed, c`hist
    ensures c.Abs() == TakeRing(old(c.Abs()).(ring := before), n)
  {
    c.consumed := Low32(c.consumed + n);
    c.hist := c.hist.(dataRead := c.hist.dataRead + taken);
  }

  /** Returns what the client sent next, as much as has arrived and fits: never a byte twice, never out of order, and
      nothing while the transport still has something to say. */
  method SshRead(c: SshConn, io: Io, buf: array<byte>, max: nat) returns (n: int)
    requires InRun(c, io) && max <= buf.Length && buf !in {c.rx, c.tx, c.pl, c.inRing}
    modifies c, c.rx, c.tx, c.pl, c.inRing, io, buf
    ensures InRun(c, io)
    ensures -1 <= n <= max
    ensures n <= 0 ==> c.hist.dataRead == old(c.hist.dataRead) && buf[..] == old(buf[..])
    ensures n > 0 ==> c.hist.dataRead == old(c.hist.dataRead) + buf[..n] && buf[n..] == old(buf[..])[n..]
    ensures n == max || c.waiting == []
    ensures n == -1 ==> c.waiting == [] && (c.state.StClosed? || c.chan.closeRecv || c.chan.remoteEof || !c.chan.open)
    ensures n == 0 && c.waiting == [] ==> !c.state.StClosed? && c.chan.open && !c.chan.closeRecv && !c.chan.remoteEof
    ensures Story(old(io.Past()), io.Past(), {ReadCall(max)}) && (!c.state.StClosed? ==> Dry(old(io.script), io.script))
  {
    hide Run;
    hide Accounted;
    hide SameFlowTrace;
    hide InflowInv;
    hide Idle;
    hide Story;
    hide Dry;
    ghost var past := io.Past();
    var p, prog := ProcessInput(c, io);
    StoryMore(past, io.Past(), {}, {ReadCall(max)});
    RingNotEmpty(c);
    if c.inHead == c.inTail {
      n := if c.state.StClosed? || c.chan.closeRecv || c.chan.remoteEof || !c.chan.open then -1 else 0;
      return;
    }
    ghost var mid := io.Past();
    n := ReadOut(c, io, buf, max);
    StoryCall(past, mid, ReadCall(max), {ReadCall(max)}, {ReadCall(max)});
    assert n == 0 ==> buf[..] == buf[n..];
  }

  // ---- SshWrite ----

  /** Nothing can be sent now, but waiting may help. */
  predicate MustWait(k: Core) {
    k.state.StConn? && k.chan.open && !k.chan.closeSent && !k.chan.closeRecv && (!CanSendNow(k) || k.chan.window == 0)
  }

  predicate Waits(c: SshConn)
    reads c
    ensures Waits(c) == MustWait(c.Abs())
  {
    c.state.StConn? && c.chan.open && !c.chan.closeSent && !c.chan.closeRecv && (!c.CanSendNow() || c.chan.window == 0)
  }

  /** One turn of a wait: what there is to read, and a stall when there is nothing. */
  method WaitTurn(c: SshConn, io: Io, start: nat, waited: nat, limitMs: nat, ghost since: nat, ghost past: Record, ghost calls: set<Event>)
    returns (done: bool, more: nat)
    requires InRun(c, io) && Story(past, io.Past(), calls)
    requires limitMs * 4000 + SPIN_US < TWO64 && waited < SpinLimit(SPIN_US, limitMs) && past.stalls + waited <= io.stalls
    requires |past.clock| <= since < |io.clock| && io.clock[since] == start
    modifies c, c.rx, c.tx, c.pl, c.inRing, io
    ensures InRun(c, io) && Forward(old(c.Abs()), c.Abs()) && Story(past, io.Past(), calls) && old(io.log) <= io.log
    ensures since < |io.clock| && io.clock[since] == start && past.stalls + more <= io.stalls
    ensures done ==> c.state.StClosed? || Spent(MarkOf(past), io.Past(), limitMs)
    ensures !done ==> more < SpinLimit(SPIN_US, limitMs)
    ensures !done && more != waited + 1 ==> Left(io.script) < Left(old(io.script)) || c.rxLen < old(c.rxLen)
    ensures !done ==> Left(io.script) <= Left(old(io.script)) && (Left(io.script) == Left(old(io.script)) ==> c.rxLen <= old(c.rxLen))
  {
    hide InRun;
    hide SshConn.Abs;
    hide Forward;
    hide Idle;
    hide Later;
    hide Explained;
    hide Dry;
    hide Spent;
    ghost var mid := io.Past();
    var p, prog := ProcessInput(c, io);
    StoryOn(past, mid, io.Past(), calls, {}, calls);
    done, more := p < 0, waited;
    if p >= 0 && !prog {
      mid := io.Past();
      done := WaitMore(io, start, waited, limitMs, since, MarkOf(past));
      more := waited + 1;
      StoryWaits(past, mid, io.Past(), calls);
    }
  }

  /** Waits exactly while waiting can help: until something may be sent or never will be, or the time is spent. */
  method AwaitWindow(c: SshConn, io: Io) returns (ok: bool)
    requires InRun(c, io)
    modifies c, c.rx, c.tx, c.pl, c.inRing, io
    ensures InRun(c, io) && Forward(old(c.Abs()), c.Abs())
    ensures if ok then !MustWait(c.Abs()) else c.state.StClosed? || Spent(MarkOf(old(io.Past())), io.Past(), 30000)
    ensures !MustWait(old(c.Abs())) ==> c.Abs() == old(c.Abs()) && io.script == old(io.script)
    ensures Story(old(io.Past()), io.Past(), {})
  {
    hide InRun;
    hide SshConn.Abs;
    hide Waits;
    hide MustWait;
    hide Forward;
    hide Idle;
    hide Story;
    hide Dry;
    hide Spent;
    ForwardSelf(c, io);
    ghost var past := io.Past();
    var waited: nat := 0;
    var start := io.Now();
    ghost var since := |io.clock| - 1;
    Marked(c, io);
    StorySelf(past, io.Past(), {});
    while Waits(c)
      invariant InRun(c, io) && Forward(old(c.Abs()), c.Abs())
      invariant waited < SpinLimit(SPIN_US, WRITE_TIMEOUT_MS) && past.stalls + waited <= io.stalls
      invariant |past.clock| <= since < |io.clock| && io.clock[since] == start && Story(past, io.Past(), {})
      invariant !MustWait(old(c.Abs())) ==> c.Abs() == old(c.Abs()) && io.script == old(io.script)
      decreases Left(io.script), c.rxLen, SpinLimit(SPIN_US, WRITE_TIMEOUT_MS) - waited
    {
      ghost var k := c.Abs();
      var done, more := WaitTurn(c, io, start, waited, WRITE_TIMEOUT_MS, since, past, {});
      ForwardAll(c, io, old(c.Abs()), k);
      if done {
        return false;
      }
      waited := more;
    }
    ok := true;
  }

  function DataOut(k: Core): seq<byte> {
    TraceOf(k.hist.sent).data
  }

  method SendData(c: SshConn, d: seq<byte>) returns (ok: bool)
    requires c.Valid() && |d| <= c.chan.window && |d| <= DATA_CHUNK
    modifies c`state, c`drawn, c`outDir, c`writes, c`hist, c`chan, c.tx, c.pl
    ensures Ret(c.Abs(), ok) == (var k := old(c.Abs());
      var r := SendPacket(c.env, k, DataMsg(k, d));
      if r.ok then Ret(r.k.(chan := r.k.chan.(window := r.k.chan.window - |d|)), true) else r)
  {
    hide SendPacket;
    var n := WriteData(c.pl, c.chan.remote, d);
    ok := c.SendPacket(c.pl[..n]);
    if ok {
      c.chan := c.chan.(window := c.chan.window - |d|);
    }
  }

  method ChunkSize(c: SshConn, len: nat) returns (n: nat)
    ensures n == ChunkLen(c.Abs(), len)
  {
    n := len;
    if n > c.chan.window {
      n := c.chan.window;
    }
    if n > c.chan.maxPkt {
      n := c.chan.maxPkt;
    }
    if n > DATA_CHUNK {
      n := DATA_CHUNK;
    }
  }

  method ChunkOut(c: SshConn, data: seq<byte>) returns (ok: bool, n: nat)
    requires c.Valid() && MayWrite(c.Abs())
    modifies c`state, c`drawn, c`outDir, c`writes, c`hist, c`chan, c.tx, c.pl
    ensures Ret(c.Abs(), ok) == WriteChunk(c.env, old(c.Abs()), data) && n == ChunkLen(old(c.Abs()), |data|)
  {
    hide SendPacket;
    hide DataMsg;
    n := ChunkSize(c, |data|);
    ok := SendData(c, data[..n]);
  }

  method SendChunk(c: SshConn, io: Io, data: seq<byte>) returns (ok: bool, n: nat)
    requires InRun(c, io) && MayWrite(c.Abs()) && data != [] && c.chan.maxPkt > 0
    modifies c, c.tx, c.pl, io`log, io`marks
    ensures InRun(c, io) && io.Past() == Noted(old(io.Past()), WriteCall(data))
    ensures n == ChunkLen(old(c.Abs()), |data|) && 0 < n <= |data|
    ensures DataOut(c.Abs()) == DataOut(old(c.Abs())) + data[..n]
    ensures if ok then c.chan == old(c.chan).(window := old(c.chan).window - n) else c.state.StClosed?
  {
    hide Apply;
    hide Feed;
    hide SendVersion;
    hide ReadRing;
    hide WriteChunk;
    hide CloseChannel;
    hide Session.Disconnect;
    hide Run;
    hide Accounted;
    hide SendPacket;
    hide TraceOf;
    ghost var k := c.Abs();
    ChunkSent(c.env, k, data);
    ok, n := ChunkOut(c, data);
    AppliedIs(c.env, Run(c.env, io.log), WriteCall(data));
    Happened(c, io, WriteCall(data));
  }

  /** The calls that send a buffer piece by piece. */
  ghost function Writes(s: seq<byte>): set<Event> {
    set i | 0 <= i < |s| :: WriteCall(s[i..])
  }

  lemma InWrites(s: seq<byte>, i: nat)
    requires i < |s|
    ensures WriteCall(s[i..]) in Writes(s)
  {
  }

  /** More might be sent, now or later. */
  predicate Writable(k: Core) {
    k.state.StConn? && k.chan.open && !k.chan.closeSent && !k.chan.closeRecv
  }

  method WriteAll(c: SshConn, io: Io, buf: array<byte>, len: nat) returns (r: int)
    requires InRun(c, io) && len <= buf.Length && buf !in {c.rx, c.tx, c.pl, c.inRing}
    requires c.chan.open ==> c.chan.maxPkt > 0
    modifies c, c.rx, c.tx, c.pl, c.inRing, io
    ensures InRun(c, io) && (r == 0 || r == -1)
    ensures r == 0 ==> DataOut(c.Abs()) == DataOut(old(c.Abs())) + buf[..len]
    ensures r == -1 ==> DataOut(old(c.Abs())) <= DataOut(c.Abs()) <= DataOut(old(c.Abs())) + buf[..len]
    ensures r == -1 ==> !Writable(c.Abs()) || Spent(Since(OnWrite, old(io.Past()), io.Past()), io.Past(), 30000)
    ensures r == -1 && DataOut(c.Abs()) == DataOut(old(c.Abs())) + buf[..len] ==> c.state.StClosed?
    ensures Story(old(io.Past()), io.Past(), Writes(buf[..len]))
  {
    hide InRun;
    hide DataOut;
    hide Story;
    hide Since;
    hide Spent;
    hide Writes;
    hide Writable;
    ghost var past, d, before := io.Past(), buf[..len], DataOut(c.Abs());
    Marked(c, io);
    StorySelf(past, past, Writes(d));
    assert d[..0] == [] && before + [] == before;
    var off := 0;
    while off < len
      invariant InRun(c, io) && off <= len && buf[..len] == d && (c.chan.open ==> c.chan.maxPkt > 0)
      invariant DataOut(c.Abs()) == before + d[..off]
      invariant Story(past, io.Past(), Writes(d))
      decreases len - off
    {
      InWrites(d, off);
      assert buf[off..len] == d[off..];
      var ok, n := WriteSome(c, io, buf[off..len], past, Writes(d));
      SoFar(before, d, off, n);
      if !ok {
        return -1;
      }
      off := off + n;
    }
    assert d[..len] == d;
    r := 0;
  }

  /** What has gone out as data to the client's channel, each packet read back by its fields. */
  ghost function DataSent(k: Core): seq<byte> {
    T.DataTo(k.hist.sent, T.Remote(k))
  }

  lemma DataIsSent(c: SshConn, io: Io)
    requires InRun(c, io)
    ensures DataSent(c.Abs()) == DataOut(c.Abs())
  {
    hide Run;
    hide TraceOf;
    hide T.DataTo;
    T.DataReaches(c.env, io.log);
  }

  /** 0 means that exactly the buffer has gone out, in channel data packets addressed to the client's channel and within its
      window and packet limit; -1 that a prefix of it has, and that no more can go out or the wait since the last packet was
      spent. It returns whatever the peer does, as long as the client's packet limit is not 0. */
  method SshWrite(c: SshConn, io: Io, buf: array<byte>, len: nat) returns (r: int)
    requires InRun(c, io) && len <= buf.Length && buf !in {c.rx, c.tx, c.pl, c.inRing}
    requires c.chan.open ==> c.chan.maxPkt > 0
    modifies c, c.rx, c.tx, c.pl, c.inRing, io
    ensures InRun(c, io) && (r == 0 || r == -1)
    ensures r == 0 ==> DataSent(c.Abs()) == DataSent(old(c.Abs())) + buf[..len]
    ensures r == -1 ==> DataSent(old(c.Abs())) <= DataSent(c.Abs()) <= DataSent(old(c.Abs())) + buf[..len]
    ensures r == -1 ==> !Writable(c.Abs()) || Spent(Since(OnWrite, old(io.Past()), io.Past()), io.Past(), 30000)
    ensures r == -1 && DataSent(c.Abs()) == DataSent(old(c.Abs())) + buf[..len] ==> c.state.StClosed?
    ensures Story(old(io.Past()), io.Past(), Writes(buf[..len]))
  {
    hide InRun;
    hide DataOut;
    hide DataSent;
    hide Story;
    hide Since;
    hide Spent;
    hide Writes;
    hide Writable;
    DataIsSent(c, io);
    r := WriteAll(c, io, buf, len);
    DataIsSent(c, io);
  }

  /** A part of the buffer more. */
  lemma SoFar(before: seq<byte>, d: seq<byte>, off: nat, n: nat)
    requires off + n <= |d|
    ensures var now := (before + d[..off]) + d[off..][..n];
      now == before + d[..off + n] && before <= now <= before + d && (now == before + d ==> off + n == |d|)
  {
    assert d[..off + n] == d[..off] + d[off..][..n];
    assert |(before + d[..off]) + d[off..][..n]| == |before| + off + n;
  }

  /** One round: a wait if need be, then one packet. */
  method WriteSome(c: SshConn, io: Io, data: seq<byte>, ghost past: Record, ghost calls: set<Event>) returns (ok: bool, n: nat)
    requires InRun(c, io) && data != [] && (c.chan.open ==> c.chan.maxPkt > 0)
    requires Story(past, io.Past(), calls) && WriteCall(data) in calls
    modifies c, c.rx, c.tx, c.pl, c.inRing, io
    ensures InRun(c, io) && Story(past, io.Past(), calls) && (ok && c.chan.open ==> c.chan.maxPkt > 0)
    ensures n <= |data| && DataOut(c.Abs()) == DataOut(old(c.Abs())) + data[..n]
    ensures if ok then n > 0
      else !Writable(c.Abs()) || Spent(Since(OnWrite, past, io.Past()), io.Past(), 30000)
    ensures !ok && n > 0 ==> c.state.StClosed?
  {
    hide InRun;
    hide DataOut;
    hide Forward;
    hide Story;
    hide Since;
    hide Spent;
    ghost var k, start := c.Abs(), io.Past();
    var ready := AwaitWindow(c, io);
    ghost var mid := io.Past();
    DataKept(k, c.Abs());
    StaysOpen(k, c.Abs());
    WaitStory(past, start, mid, calls);
    if !ready || !c.CanSendNow() || c.chan.closeRecv || c.chan.window == 0 {
      return false, 0;
    }
    ok, n := SendChunk(c, io, data);
    StoryCall(past, mid, WriteCall(data), calls, calls);
  }

  lemma WaitStory(a: Record, b: Record, c: Record, calls: set<Event>)
    requires Story(a, b, calls) && Story(b, c, {})
    ensures Story(a, c, calls)
    ensures Spent(MarkOf(b), c, 30000) ==> Spent(Since(OnWrite, a, c), c, 30000)
  {
    hide Later;
    hide Spent;
    StoryOn(a, b, c, calls, {}, calls);
    SinceKept(OnWrite, a, b, c, calls, {});
    SinceBetween(OnWrite, a, b, calls);
    if Spent(MarkOf(b), c, WRITE_TIMEOUT_MS) {
      SpentEarlier(Since(OnWrite, a, b), MarkOf(b), c, WRITE_TIMEOUT_MS);
    }
  }

  lemma StaysOpen(k: Core, k': Core)
    ensures (MustWait(k) || k' == k) && k'.chan.open ==> k.chan.open
  {
  }

  lemma DataKept(k: Core, k': Core)
    requires Forward(k, k')
    ensures DataOut(k') == DataOut(k) && (k.chan.open ==> k'.chan.open && k'.chan.maxPkt == k.chan.maxPkt)
  {
    hide TraceOf;
  }

  // ---- SshClose ----

  method SendGoodbye(c: SshConn, exitStatus: uint32)
    requires c.Valid() && c.state.StConn? && c.chan.open && !c.chan.closeSent
    modifies c`state, c`drawn, c`outDir, c`writes, c`hist, c`chan, c.tx, c.pl
    ensures c.Abs() == CloseChannel(c.env, old(c.Abs()), exitStatus)
  {
    hide SendPacket;
    hide Session.SendChannelReply;
    hide PutU32;
    hide Str;
    var n := WriteExitStatus(c.pl, c.chan.remote, exitStatus);
    var _ := c.SendPacket(c.pl[..n]);
    var _ := c.SendChannelReply(MSG_CHANNEL_EOF);
    var _ := c.SendChannelReply(MSG_CHANNEL_CLOSE);
    c.chan := c.chan.(closeSent := true);
  }

  method CloseCallOnce(c: SshConn, io: Io, exitStatus: uint32)
    requires InRun(c, io) && c.state.StConn? && c.chan.open && !c.chan.closeSent
    modifies c, c.tx, c.pl, io`log, io`marks
    ensures InRun(c, io) && io.Past() == Noted(old(io.Past()), CloseCall(exitStatus))
  {
    hide Apply;
    hide Feed;
    hide SendVersion;
    hide ReadRing;
    hide WriteChunk;
    hide CloseChannel;
    hide Session.Disconnect;
    hide Run;
    hide Accounted;
    SendGoodbye(c, exitStatus);
    AppliedIs(c.env, Run(c.env, io.log), CloseCall(exitStatus));
    Happened(c, io, CloseCall(exitStatus));
  }

  /** What SshClose may do by itself: say goodbye on a channel it can close, and hang up once the client has closed its side
      too or has had its time; without such a channel, hang up. */
  ghost function CloseCalls(could: bool, exitStatus: uint32, answered: bool, a: Record, b: Record): set<Event> {
    (if could then {CloseCall(exitStatus)} else {})
    + (if could ==> answered || Spent(MarkOf(a), b, 2000) then {GiveUp(false)} else {})
  }

  method SshClose(c: SshConn, io: Io, exitStatus: uint32)
    requires InRun(c, io)
    modifies c, c.rx, c.tx, c.pl, c.inRing, io
    ensures InRun(c, io) && c.state.StClosed?
    ensures ClosesChannel(old(c.Abs())) ==> old(io.log) + [CloseCall(exitStatus)] <= io.log
    ensures !ClosesChannel(old(c.Abs())) ==> io.script == old(io.script)
    ensures Story(old(io.Past()), io.Past(),
      CloseCalls(ClosesChannel(old(c.Abs())), exitStatus, c.chan.closeRecv, old(io.Past()), io.Past()))
  {
    hide InRun;
    hide Story;
    hide Spent;
    ghost var past := io.Past();
    ghost var could := c.state.StConn? && c.chan.open && !c.chan.closeSent;
    Marked(c, io);
    StorySelf(past, past, {});
    if c.state.StConn? && c.chan.open && !c.chan.closeSent {
      CloseCallOnce(c, io, exitStatus);
      StoryCall(past, past, CloseCall(exitStatus), {}, {CloseCall(exitStatus)});
      AwaitClose(c, io, past, exitStatus);
    }
    if !c.state.StClosed? {
      HangUp(c, io, past, could, exitStatus);
    } else {
      StoryMore(past, io.Past(), if could then {CloseCall(exitStatus)} else {},
                CloseCalls(could, exitStatus, c.chan.closeRecv, past, io.Past()));
    }
  }

  method HangUp(c: SshConn, io: Io, ghost past: Record, ghost could: bool, ghost exitStatus: uint32)
    requires InRun(c, io) && Story(past, io.Past(), if could then {CloseCall(exitStatus)} else {})
    requires could ==> c.chan.closeRecv || Spent(MarkOf(past), io.Past(), CLOSE_TIMEOUT_MS)
    modifies c, c.tx, c.pl, io`log, io`marks
    ensures InRun(c, io) && c.state.StClosed? && c.chan == old(c.chan)
    ensures io.log == old(io.log) + [GiveUp(false)]
    ensures Story(past, io.Past(), CloseCalls(could, exitStatus, c.chan.closeRecv, past, io.Past()))
  {
    hide InRun;
    hide Story;
    hide Late;
    ghost var mid := io.Past();
    GiveUpCall(c, io, false);
    StoryCall(past, mid, GiveUp(false), if could then {CloseCall(exitStatus)} else {},
              CloseCalls(could, exitStatus, c.chan.closeRecv, past, io.Past()));
  }

  /** The wait for the client to close its side. */
  method AwaitClose(c: SshConn, io: Io, ghost past: Record, ghost exitStatus: uint32)
    requires InRun(c, io) && Story(past, io.Past(), {CloseCall(exitStatus)}) && past.log + [CloseCall(exitStatus)] <= io.log
    modifies c, c.rx, c.tx, c.pl, c.inRing, io
    ensures InRun(c, io) && Story(past, io.Past(), {CloseCall(exitStatus)}) && past.log + [CloseCall(exitStatus)] <= io.log
    ensures c.state.StClosed? || c.chan.closeRecv || Spent(MarkOf(past), io.Past(), 2000)
  {
    hide InRun;
    hide SshConn.Abs;
    hide Forward;
    hide Idle;
    hide Dry;
    hide Spent;
    hide Later;
    hide Explained;
    ghost var calls := {CloseCall(exitStatus)};
    var waited: nat := 0;
    ghost var mid := io.Past();
    var start := io.Now();
    ghost var since := |io.clock| - 1;
    StorySelf(mid, io.Past(), {});
    StoryOn(past, mid, io.Past(), calls, {}, calls);
    while !c.state.StClosed? && !c.chan.closeRecv
      invariant InRun(c, io) && waited < SpinLimit(SPIN_US, CLOSE_TIMEOUT_MS) && past.stalls + waited <= io.stalls
      invariant |past.clock| <= since < |io.clock| && io.clock[since] == start
      invariant Story(past, io.Past(), calls) && past.log + [CloseCall(exitStatus)] <= io.log
      decreases Left(io.script), c.rxLen, SpinLimit(SPIN_US, CLOSE_TIMEOUT_MS) - waited
    {
      var done, more := WaitTurn(c, io, start, waited, CLOSE_TIMEOUT_MS, since, past, calls);
      if done {
        return;
      }
      waited := more;
    }
  }
}
