/** How the transport splits the input makes no difference, exactly as long as no line before the client's version is
    longer than the version buffer. */
module Fragmentation {
  import opened Bytes
  import opened Environment
  import opened RecordLayer
  import opened Session
  import opened SessionFrames
  import opened Connection
  import opened Runs
  import K = KexInvariants
  import opened ServiceInvariants

  /** The same connection, except that a closed one may be left with different unread input. */
  predicate Same(a: Conn, b: Conn) {
    a == b || (a.core == b.core && a.core.state.StClosed?)
  }

  /** Every line up to and including the client's version has at most 254 bytes before its LF. */
  predicate LinesShort(s: seq<byte>)
    decreases |s|
  {
    var i := LfAt(s, 0);
    i == |s| || (i <= 254 && (IsSshLine(LineOf(s, i)) || LinesShort(s[i + 1..])))
  }

  predicate LinesOk(c: Conn, extra: seq<byte>) {
    c.core.state.StVersion? ==> LinesShort(c.buf + extra)
  }

  function Plus(c: Conn, extra: seq<byte>): (r: Conn)
    requires ConnOk(c)
    ensures ConnOk(r)
  {
    c.(buf := c.buf + extra)
  }

  // ---- one step ----

  lemma LfMore(s: seq<byte>, extra: seq<byte>)
    ensures LfAt(s, 0) < |s| ==> LfAt(s + extra, 0) == LfAt(s, 0)
    ensures LfAt(s, 0) == |s| ==> LfAt(s + extra, 0) >= |s|
  {
    var i, j := LfAt(s, 0), LfAt(s + extra, 0);
    if i < |s| {
      assert (s + extra)[i] == LF;
    }
    assert forall k :: 0 <= k < |s| ==> (s + extra)[k] == s[k];
  }

  ghost predicate StepAgrees(env: Env, c: Conn, extra: seq<byte>)
    requires ConnOk(c)
  {
    var (c1, r) := TryOne(env, c);
    if r == 0 then TryOne(env, Plus(c, extra)) == TryOne(env, Plus(c1, extra))
    else TryOne(env, Plus(c, extra)) == (Plus(c1, extra), r)
  }

  lemma VersionMore(env: Env, c: Conn, extra: seq<byte>)
    requires ConnOk(c) && c.core.state.StVersion? && LinesOk(c, extra)
    ensures var (c1, r) := VersionLine(env, c);
      if r == 0 then c1 == c
      else VersionLine(env, Plus(c, extra)) == (Plus(c1, extra), r)
  {
    hide Disconnect;
    hide TakeVersion;
    hide LfAt;
    LfMore(c.buf, extra);
    var i := LfAt(c.buf, 0);
    var all := c.buf + extra;
    if i < |c.buf| {
      assert all[i + 1..] == c.buf[i + 1..] + extra;
      assert LineOf(all, i) == LineOf(c.buf, i);
    }
  }

  lemma PacketMore(env: Env, c: Conn, extra: seq<byte>)
    requires ConnOk(c) && !c.core.state.StVersion?
    ensures var (c1, r) := Packet(env, c);
      if r == 0 then Packet(env, Plus(c, extra)) == Packet(env, Plus(c1, extra)) && !c1.core.state.StVersion?
                     && c1.core.state == c.core.state
      else Packet(env, Plus(c, extra)) == (Plus(c1, extra), r)
  {
    hide RxStep;
    hide Deliver;
    hide Disconnect;
    StepMore(env, RxOf(c), extra);
    var (x, res) := RxStep(env, RxOf(c));
    assert RxOf(Plus(c, extra)) == More(RxOf(c), extra);
    if res.NeedMore? {
      var c1 := WithRx(c.core, x);
      assert RxOf(Plus(c1, extra)) == More(x, extra);
    }
  }

  lemma TryOneMore(env: Env, c: Conn, extra: seq<byte>)
    requires ConnOk(c) && LinesOk(c, extra)
    ensures StepAgrees(env, c, extra)
  {
    hide VersionLine;
    hide Packet;
    if c.core.state.StVersion? {
      VersionMore(env, c, extra);
    } else if !c.core.state.StClosed? {
      PacketMore(env, c, extra);
    }
  }

  lemma LinesKept(env: Env, c: Conn, extra: seq<byte>)
    requires ConnOk(c) && LinesOk(c, extra) && Good(env, c.core) && TryOne(env, c).1 >= 0
    ensures LinesOk(TryOne(env, c).0, extra)
  {
    hide VersionLine;
    hide Packet;
    hide Good;
    TryOneOk(env, c);
    if TryOne(env, c).0.core.state.StVersion? {
      assert c.core.state.StVersion?;
      VersionLinesKept(env, c, extra);
    }
  }

  lemma VersionLinesKept(env: Env, c: Conn, extra: seq<byte>)
    requires ConnOk(c) && c.core.state.StVersion? && LinesOk(c, extra)
    requires VersionLine(env, c).1 >= 0 && VersionLine(env, c).0.core.state.StVersion?
    ensures LinesOk(VersionLine(env, c).0, extra)
  {
    hide SendPacket;
    hide KexInitMsg;
    hide Disconnect;
    hide LfAt;
    LfMore(c.buf, extra);
    var i := LfAt(c.buf, 0);
    if i < |c.buf| {
      assert (c.buf + extra)[i + 1..] == c.buf[i + 1..] + extra;
      assert LineOf(c.buf + extra, i) == LineOf(c.buf, i);
    }
  }

  // ---- the packet loop ----

  lemma {:induction false} DrainMore(env: Env, c: Conn, extra: seq<byte>)
    requires ConnOk(c) && Good(env, c.core) && LinesOk(c, extra)
    ensures Same(Feed(env, Drain(env, c), extra), Drain(env, Plus(c, extra)))
    decreases |c.buf|
  {
    hide TryOne;
    hide LinesOk;
    hide Good;
    hide Forward;
    TryOneMore(env, c, extra);
    TryOneOk(env, c);
    TryOneResult(env, c);
    var (c1, r) := TryOne(env, c);
    if r == 1 {
      LinesKept(env, c, extra);
      DrainMore(env, c1, extra);
    }
  }

  /** Two reads in a row are one read of both. */
  lemma FeedSplit(env: Env, c: Conn, a: seq<byte>, b: seq<byte>)
    requires ConnOk(c) && Good(env, c.core) && LinesOk(c, a + b)
    ensures Same(Feed(env, Feed(env, c, a), b), Feed(env, c, a + b))
  {
    hide Drain;
    hide Good;
    assert (c.buf + a) + b == c.buf + (a + b);
    if !c.core.state.StClosed? {
      DrainMore(env, Plus(c, a), b);
    }
  }

  lemma FeedOfSame(env: Env, a: Conn, b: Conn, d: seq<byte>)
    requires ConnOk(a) && ConnOk(b) && Same(a, b)
    ensures Same(Feed(env, a, d), Feed(env, b, d))
  {
    hide Drain;
  }

  lemma SameTransitive(a: Conn, b: Conn, c: Conn)
    requires Same(a, b) && Same(b, c)
    ensures Same(a, c)
  {
  }

  lemma {:induction false} FeedAllJoin(env: Env, c: Conn, done: seq<byte>, chunks: seq<seq<byte>>)
    requires ConnOk(c) && Good(env, c.core) && LinesOk(c, done + Concat(chunks))
    ensures Same(FeedAll(env, Feed(env, c, done), chunks), Feed(env, c, done + Concat(chunks)))
    decreases |chunks|
  {
    hide Feed;
    hide Good;
    hide LinesOk;
    if chunks == [] {
      assert done + Concat(chunks) == done;
    } else {
      var d, rest := chunks[0], chunks[1..];
      assert done + Concat(chunks) == (done + d) + Concat(rest);
      LinesPrefix(c, done + d, Concat(rest));
      FeedSplit(env, c, done, d);
      FeedAllSame(env, Feed(env, Feed(env, c, done), d), Feed(env, c, done + d), rest);
      FeedAllJoin(env, c, done + d, rest);
      SameTransitive(FeedAll(env, Feed(env, c, done), chunks), FeedAll(env, Feed(env, c, done + d), rest),
                     Feed(env, c, done + Concat(chunks)));
    }
  }

  lemma {:induction false} FeedAllSame(env: Env, a: Conn, b: Conn, chunks: seq<seq<byte>>)
    requires ConnOk(a) && ConnOk(b) && Same(a, b)
    ensures Same(FeedAll(env, a, chunks), FeedAll(env, b, chunks))
    decreases |chunks|
  {
    hide Feed;
    hide Same;
    if chunks != [] {
      FeedOfSame(env, a, b, chunks[0]);
      FeedAllSame(env, Feed(env, a, chunks[0]), Feed(env, b, chunks[0]), chunks[1..]);
    }
  }

  lemma LinesPrefix(c: Conn, a: seq<byte>, b: seq<byte>)
    requires LinesOk(c, a + b)
    ensures LinesOk(c, a)
  {
    assert c.buf + (a + b) == (c.buf + a) + b;
    ShortPrefix(c.buf + a, b, c.core.state.StVersion?);
  }

  lemma {:induction false} ShortPrefix(s: seq<byte>, extra: seq<byte>, relevant: bool)
    requires relevant ==> LinesShort(s + extra)
    ensures relevant ==> LinesShort(s)
    decreases |s|
  {
    if relevant {
      LfMore(s, extra);
      var i := LfAt(s, 0);
      if i < |s| {
        assert LineOf(s + extra, i) == LineOf(s, i);
        assert (s + extra)[i + 1..] == s[i + 1..] + extra;
        if !IsSshLine(LineOf(s, i)) {
          ShortPrefix(s[i + 1..], extra, true);
        }
      }
    }
  }

  /** Fragmentation independence: from any reachable state, however the transport splits the input, the packets
      handled, the packets sent, the keys, the session and every byte count come out the same. */
  lemma SplittingIsInvisible(env: Env, events: seq<Event>, chunks: seq<seq<byte>>, others: seq<seq<byte>>)
    requires Concat(chunks) == Concat(others)
    requires LinesOk(Run(env, events), Concat(chunks))
    ensures var c := Run(env, events);
      chunks != [] && others != [] ==> Same(FeedAll(env, c, chunks), FeedAll(env, c, others))
  {
    hide Run;
    hide Feed;
    hide Good;
    hide LinesOk;
    var c := Run(env, events);
    RunOk(env, events);
    if chunks != [] && others != [] {
      FromFirst(env, c, chunks);
      FromFirst(env, c, others);
    }
  }

  lemma FromFirst(env: Env, c: Conn, chunks: seq<seq<byte>>)
    requires ConnOk(c) && Good(env, c.core) && LinesOk(c, Concat(chunks)) && chunks != []
    ensures Same(FeedAll(env, c, chunks), Feed(env, c, Concat(chunks)))
  {
    hide Feed;
    hide Good;
    hide LinesOk;
    FeedAllJoin(env, c, chunks[0], chunks[1..]);
  }

  // ---- and only then ----

  /** Every prefix of the input can be delivered whole or in two pieces with the same effect. */
  ghost predicate Uniform(env: Env, c: Conn, s: seq<byte>)
    requires ConnOk(c)
  {
    forall a, b :: a + b <= s ==> Same(Feed(env, Feed(env, c, a), b), Feed(env, c, a + b))
  }

  lemma LineStep(env: Env, c: Conn, all: seq<byte>, i: nat)
    requires ConnOk(c) && c.core.state.StVersion? && c.buf == all && LfAt(all, 0) == i && i < |all|
    ensures var line := LineOf(all, i);
      && (!IsSshLine(line) ==> TryOne(env, c) == (c.(buf := all[i + 1..]), 1))
      && (IsSshLine(line) && IsSsh2(line) ==>
           var r := TakeVersion(env, c.core, line);
           TryOne(env, c) == (c.(core := r.k, buf := all[i + 1..]), if r.ok then 1 else -1))
  {
    hide TakeVersion;
    hide Disconnect;
    hide Packet;
    hide LfAt;
  }

  /** The line does not depend on what follows it. */
  lemma SameLine(s: seq<byte>, x: seq<byte>)
    requires LfAt(s, 0) < |s|
    ensures var i := LfAt(s, 0);
      var all := s[..i + 1] + x;
      LfAt(all, 0) == i && LineOf(all, i) == LineOf(s, i) && all[i + 1..] == x
  {
    hide LfAt;
    var i := LfAt(s, 0);
    LfIs(s[..i + 1] + x, i);
  }

  lemma FedIs(env: Env, c: Conn, x: seq<byte>)
    requires ConnOk(c) && c.core.state.StVersion? && c.buf == []
    ensures Feed(env, c, x) == Drain(env, c.(buf := x))
  {
    hide Drain;
    assert [] + x == x;
  }

  lemma SkipLine(env: Env, c: Conn, s: seq<byte>, x: seq<byte>)
    requires ConnOk(c) && c.core.state.StVersion? && c.buf == []
    requires LfAt(s, 0) < |s| && !IsSshLine(LineOf(s, LfAt(s, 0)))
    ensures Feed(env, c, s[..LfAt(s, 0) + 1] + x) == Feed(env, c, x)
  {
    hide TryOne;
    hide IsSshLine;
    hide IsSsh2;
    hide TakeVersion;
    hide Drain;
    hide Feed;
    hide LfAt;
    hide LineOf;
    var i := LfAt(s, 0);
    var all := s[..i + 1] + x;
    SameLine(s, x);
    LineStep(env, c.(buf := all), all, i);
    DrainStep(env, c.(buf := all));
    FedIs(env, c, all);
    FedIs(env, c, x);
  }

  lemma LfIs(s: seq<byte>, i: nat)
    requires i < |s| && s[i] == LF && forall k :: 0 <= k < i ==> s[k] != LF
    ensures LfAt(s, 0) == i
  {
    var j := LfAt(s, 0);
  }

  /** What the last packet sent says. */
  function LastSent(k: Core): seq<byte> {
    if k.hist.sent == [] then [] else k.hist.sent[|k.hist.sent| - 1].payload
  }

  lemma DisconnectSays(env: Env, k: Core, reason: uint32, msg: string)
    requires !k.state.StClosed? && |msg| <= 1000
    ensures LastSent(Disconnect(env, k, reason, msg)) == DisconnectMsg(reason, msg)
  {
    hide Seal;
    hide PadLen;
    hide DisconnectMsg;
    assert |DisconnectMsg(reason, msg)| <= 2000 by { MsgLength(reason, msg); }
  }

  lemma MsgLength(reason: uint32, msg: string)
    ensures |DisconnectMsg(reason, msg)| == 13 + |msg| && DisconnectMsg(reason, msg)[0] == MSG_DISCONNECT
  {
  }

  lemma TooLong(env: Env, c: Conn, a: seq<byte>)
    requires ConnOk(c) && c.core.state.StVersion? && c.buf == [] && |a| >= 255 && LfAt(a, 0) == |a|
    ensures Feed(env, c, a) == c.(buf := a, core := Disconnect(env, c.core, DISC_PROTOCOL_ERROR, "version line too long"))
  {
    hide TakeVersion;
    hide Disconnect;
    hide LfAt;
    assert [] + a == a;
  }

  /** A line that arrives whole is never "too long". */
  lemma WholeLine(env: Env, c: Conn, a: seq<byte>)
    requires ConnOk(c) && Good(env, c.core) && c.core.state.StVersion? && c.buf == [] && LfAt(a, 0) == |a|
    ensures var k := Feed(env, c, a + [LF]).core;
      !k.state.StClosed? || LastSent(k) != DisconnectMsg(DISC_PROTOCOL_ERROR, "version line too long")
  {
    hide TakeVersion;
    hide Disconnect;
    hide LfAt;
    hide Good;
    hide Packet;
    hide IsSshLine;
    hide IsSsh2;
    hide LineOf;
    hide Feed;
    hide Drain;
    hide TryOne;
    hide ConnOk;
    hide LastSent;
    var s := a + [LF];
    LfIs(s, |a|);
    var line := LineOf(s, |a|);
    if !IsSshLine(line) {
      SkipLine(env, c, s, []);
      assert s[..|a| + 1] + [] == s;
      EmptyFeed(env, c);
    } else if !IsSsh2(line) {
      OldVersionSays(env, c, s, |a|);
    } else {
      TakenSays(env, c, s, line);
    }
  }

  lemma EmptyFeed(env: Env, c: Conn)
    requires ConnOk(c) && c.core.state.StVersion? && c.buf == []
    ensures Feed(env, c, []) == c
  {
    hide Drain;
    hide Feed;
    NothingToDo(env, c);
  }

  /** A line of another protocol version is refused for that. */
  lemma OldVersionSays(env: Env, c: Conn, s: seq<byte>, i: nat)
    requires ConnOk(c) && c.core.state.StVersion? && c.buf == [] && LfAt(s, 0) == i && i < |s|
    requires IsSshLine(LineOf(s, i)) && !IsSsh2(LineOf(s, i))
    ensures LastSent(Feed(env, c, s).core) != DisconnectMsg(DISC_PROTOCOL_ERROR, "version line too long")
  {
    hide TakeVersion;
    hide Disconnect;
    hide LfAt;
    hide LineOf;
    hide IsSshLine;
    hide IsSsh2;
    hide DisconnectMsg;
    hide LastSent;
    hide Drain;
    hide TryOne;
    FedIs(env, c, s);
    OldVersionStep(env, c.(buf := s), i);
    DrainStep(env, c.(buf := s));
    DisconnectSays(env, c.core, DISC_PROTOCOL_ERROR, "only SSH 2.0 is supported");
    MsgLength(DISC_PROTOCOL_ERROR, "only SSH 2.0 is supported");
    MsgLength(DISC_PROTOCOL_ERROR, "version line too long");
  }

  lemma OldVersionStep(env: Env, c: Conn, i: nat)
    requires ConnOk(c) && c.core.state.StVersion? && LfAt(c.buf, 0) == i && i < |c.buf|
    requires IsSshLine(LineOf(c.buf, i)) && !IsSsh2(LineOf(c.buf, i))
    ensures TryOne(env, c) == (c.(core := Disconnect(env, c.core, DISC_PROTOCOL_ERROR, "only SSH 2.0 is supported")), -1)
  {
    hide TakeVersion;
    hide Disconnect;
    hide Packet;
    hide LfAt;
    hide LineOf;
    hide IsSshLine;
    hide IsSsh2;
  }

  lemma NothingToDo(env: Env, c: Conn)
    requires ConnOk(c) && c.buf == [] && !c.haveLen && !c.core.state.StClosed?
    ensures Drain(env, c) == c && Feed(env, c, []) == c
  {
    hide Deliver;
    hide Disconnect;
    hide TakeVersion;
    hide LfAt;
    hide RxStep;
    assert [] + [] == c.buf;
    EmptyBuffer(env, c.core.inDir, c.pktLen);
    assert LfAt(c.buf, 0) == 0;
  }

  lemma NoInitYet(env: Env, k: Core)
    requires Good(env, k) && k.state.StVersion?
    ensures !k.kexInitSent
  {
    hide SvcInv;
    hide OutOk;
    hide SeenOf;
    hide TraceOf;
  }

  /** A version line that arrives whole, and nothing with it, is taken, and nothing is left over. */
  lemma LineTaken(env: Env, c: Conn, s: seq<byte>)
    requires ConnOk(c) && Good(env, c.core) && c.core.state.StVersion? && c.buf == []
    requires s != [] && LfAt(s, 0) == |s| - 1 && IsSshLine(LineOf(s, |s| - 1)) && IsSsh2(LineOf(s, |s| - 1))
    ensures Feed(env, c, s) == c.(core := TakeVersion(env, c.core, LineOf(s, |s| - 1)).k, buf := [])
  {
    hide TakeVersion;
    hide TryOne;
    hide IsSshLine;
    hide IsSsh2;
    hide Good;
    hide LineOf;
    hide Drain;
    hide Feed;
    hide LfAt;
    var r := TakeVersion(env, c.core, LineOf(s, |s| - 1));
    TakeVersionOk(env, c.core, LineOf(s, |s| - 1));
    assert s[|s|..] == [];
    FedIs(env, c, s);
    LineStep(env, c.(buf := s), s, |s| - 1);
    DrainStep(env, c.(buf := s));
    if r.ok {
      NothingToDo(env, c.(core := r.k, buf := []));
    }
  }

  lemma TakenSays(env: Env, c: Conn, s: seq<byte>, line: seq<byte>)
    requires ConnOk(c) && Good(env, c.core) && c.core.state.StVersion? && c.buf == []
    requires s != [] && LfAt(s, 0) == |s| - 1 && line == LineOf(s, |s| - 1) && IsSshLine(line) && IsSsh2(line)
    ensures LastSent(Feed(env, c, s).core) != DisconnectMsg(DISC_PROTOCOL_ERROR, "version line too long")
  {
    hide TakeVersion;
    hide IsSshLine;
    hide IsSsh2;
    hide Good;
    hide LineOf;
    hide LfAt;
    hide Feed;
    hide DisconnectMsg;
    NoInitYet(env, c.core);
    VersionSays(env, c.core, line);
    MsgLength(DISC_PROTOCOL_ERROR, "version line too long");
    LineTaken(env, c, s);
  }

  lemma VersionSays(env: Env, k: Core, line: seq<byte>)
    requires !k.state.StClosed? && !k.kexInitSent
    ensures Is(LastSent(TakeVersion(env, k, line).k), MSG_KEXINIT)
  {
    hide SendKexInit;
    var k1 := k.(version := line, state := StKex, kex := KxWaitKexInit);
    K.SendInit(env, k1);
  }

  lemma SaysOtherwise(a: Conn, b: Conn)
    requires a.core.state.StClosed? && (!b.core.state.StClosed? || LastSent(b.core) != LastSent(a.core))
    ensures !Same(a, b)
  {
  }

  /** A line longer than the version buffer shows how it was split. */
  lemma {:induction false} LongLineShows(env: Env, c: Conn, s: seq<byte>) returns (a: seq<byte>, b: seq<byte>)
    requires ConnOk(c) && Good(env, c.core) && c.core.state.StVersion? && c.buf == [] && !LinesShort(s)
    ensures a + b <= s && |a| >= LfAt(s, 0) && !Same(Feed(env, Feed(env, c, a), b), Feed(env, c, a + b))
    decreases |s|
  {
    hide Feed;
    hide Good;
    hide LfAt;
    hide Same;
    hide LastSent;
    hide DisconnectMsg;
    var i := LfAt(s, 0);
    if i > 254 {
      a, b := s[..i], [LF];
      assert a + b == s[..i + 1];
      NoLf(a);
      TooLong(env, c, a);
      WholeLine(env, c, a);
      DisconnectSays(env, c.core, DISC_PROTOCOL_ERROR, "version line too long");
      ClosedFeed(env, Feed(env, c, a), b);
      SaysOtherwise(Feed(env, c, a), Feed(env, c, a + b));
    } else {
      var a1, b1 := LongLineShows(env, c, s[i + 1..]);
      a, b := s[..i + 1] + a1, b1;
      SkipLine(env, c, s, a1);
      SkipLine(env, c, s, a1 + b1);
      assert a + b == s[..i + 1] + (a1 + b1);
      assert s == s[..i + 1] + s[i + 1..];
    }
  }

  lemma ClosedFeed(env: Env, c: Conn, d: seq<byte>)
    requires ConnOk(c) && c.core.state.StClosed?
    ensures Feed(env, c, d) == c
  {
  }

  lemma NoLf(a: seq<byte>)
    requires forall k :: 0 <= k < |a| ==> a[k] != LF
    ensures LfAt(a, 0) == |a|
  {
  }

  // ---- what can be left of a line ----

  /** While the version line is awaited, what is buffered between events is the beginning of one line. */
  predicate LineBegun(c: Conn) {
    c.core.state.StVersion? ==> LfAt(c.buf, 0) == |c.buf|
  }

  lemma {:induction false} DrainBegun(env: Env, c: Conn)
    requires ConnOk(c) && Good(env, c.core)
    ensures LineBegun(Drain(env, c))
    decreases |c.buf|
  {
    hide TryOne;
    hide Good;
    hide Forward;
    hide LineBegun;
    TryOneOk(env, c);
    TryOneResult(env, c);
    var (c1, r) := TryOne(env, c);
    if r == 1 {
      DrainBegun(env, c1);
    } else {
      OneBegun(env, c);
    }
  }

  lemma OneBegun(env: Env, c: Conn)
    requires ConnOk(c) && Good(env, c.core) && TryOne(env, c).1 != 1
    ensures LineBegun(TryOne(env, c).0)
  {
    hide VersionLine;
    hide Packet;
    hide Good;
    hide LfAt;
    TryOneOk(env, c);
    TryOneResult(env, c);
    if c.core.state.StVersion? && TryOne(env, c).1 == 0 {
      NotYet(env, c);
    }
  }

  lemma NotYet(env: Env, c: Conn)
    requires ConnOk(c) && c.core.state.StVersion? && VersionLine(env, c).1 == 0
    ensures VersionLine(env, c).0 == c && LfAt(c.buf, 0) == |c.buf|
  {
    hide LfAt;
    hide TakeVersion;
    hide Disconnect;
  }

  lemma {:induction false} RunBegun(env: Env, events: seq<Event>)
    ensures LineBegun(Run(env, events))
    decreases |events|
  {
    hide Apply;
    hide Good;
    if events != [] {
      var init, e := events[..|events| - 1], events[|events| - 1];
      RunBegun(env, init);
      EventBegun(env, init, e);
    }
  }

  lemma EventBegun(env: Env, init: seq<Event>, e: Event)
    requires LineBegun(Run(env, init))
    ensures LineBegun(Apply(env, Run(env, init), e))
  {
    hide Run;
    hide Drain;
    hide Good;
    hide LfAt;
    hide SendVersion;
    hide ReadRing;
    hide WriteChunk;
    hide CloseChannel;
    hide Disconnect;
    var c := Run(env, init);
    RunOk(env, init);
    ApplyOk(env, c, e);
    if e.Input? && !c.core.state.StClosed? {
      DrainBegun(env, Plus(c, e.data));
    }
  }

  /** A connection with a line begun is one with nothing buffered that is fed the beginning first. */
  lemma FedFromStart(env: Env, c: Conn, x: seq<byte>)
    requires ConnOk(c) && c.core.state.StVersion?
    ensures Feed(env, c, x) == Feed(env, c.(buf := []), c.buf + x)
  {
    hide Drain;
    assert [] + (c.buf + x) == c.buf + x;
  }

  /** The exact condition: while the version line is awaited, whatever of it has arrived, splitting the rest of the input is
      invisible at every point if and only if each line up to the client's version has at most 254 bytes before its
      LF. */
  lemma UniformIffShortLines(env: Env, events: seq<Event>, s: seq<byte>)
    requires Run(env, events).core.state.StVersion?
    ensures var c := Run(env, events);
      Uniform(env, c, s) <==> LinesShort(c.buf + s)
  {
    hide Run;
    hide Feed;
    hide Good;
    hide LinesShort;
    hide LfAt;
    var c := Run(env, events);
    RunOk(env, events);
    RunBegun(env, events);
    if LinesShort(c.buf + s) {
      forall a, b | a + b <= s
        ensures Same(Feed(env, Feed(env, c, a), b), Feed(env, c, a + b))
      {
        var rest := s[|a + b|..];
        assert c.buf + s == (c.buf + (a + b)) + rest;
        ShortPrefix(c.buf + (a + b), rest, true);
        FeedSplit(env, c, a, b);
      }
    } else {
      ShowsFrom(env, c, s);
    }
  }

  lemma ShowsFrom(env: Env, c: Conn, s: seq<byte>)
    requires ConnOk(c) && Good(env, c.core) && c.core.state.StVersion? && LfAt(c.buf, 0) == |c.buf|
    requires !LinesShort(c.buf + s)
    ensures !Uniform(env, c, s)
  {
    hide Feed;
    hide Good;
    hide LinesShort;
    hide LfAt;
    var c0, q := c.(buf := []), c.buf;
    var a, b := LongLineShows(env, c0, q + s);
    LfMore(q, s);
    assert a == (a + b)[..|a|] == (q + s)[..|a|];
    var a1 := a[|q|..];
    assert q + a1 == a;
    assert a1 + b <= s by { assert (q + s)[|q|..] == s && (a + b)[|q|..] == a1 + b; }
    FedFromStart(env, c, a1);
    FedFromStart(env, c, a1 + b);
    assert q + (a1 + b) == a + b;
  }

  // ---- runs of nothing but input ----

  /** The pieces in which a run of nothing but input got its bytes. */
  function Pieces(events: seq<Event>): seq<seq<byte>>
    requires forall e :: e in events ==> e.Input?
    decreases |events|
  {
    if events == [] then [] else Pieces(events[..|events| - 1]) + [events[|events| - 1].data]
  }

  lemma {:induction false} FeedAllSnoc(env: Env, c: Conn, chunks: seq<seq<byte>>, d: seq<byte>)
    requires ConnOk(c)
    ensures FeedAll(env, c, chunks + [d]) == Feed(env, FeedAll(env, c, chunks), d)
    ensures Concat(chunks + [d]) == Concat(chunks) + d
    decreases |chunks|
  {
    hide Feed;
    if chunks == [] {
      assert [] + [d] == [d] && [d][1..] == [];
      assert d + [] == d && [] + d == d;
    } else {
      assert (chunks + [d])[1..] == chunks[1..] + [d];
      FeedAllSnoc(env, Feed(env, c, chunks[0]), chunks[1..], d);
      assert chunks[0] + (Concat(chunks[1..]) + d) == (chunks[0] + Concat(chunks[1..])) + d;
    }
  }

  lemma {:induction false} InputRun(env: Env, events: seq<Event>)
    requires forall e :: e in events ==> e.Input?
    ensures Run(env, events) == FeedAll(env, FRESH, Pieces(events)) && Arrived(events) == Concat(Pieces(events))
    decreases |events|
  {
    hide Feed;
    if events != [] {
      hide FeedAll;
      hide Concat;
      var init, e := events[..|events| - 1], events[|events| - 1];
      assert e in events && forall x :: x in init ==> x in events;
      InputRun(env, init);
      FeedAllSnoc(env, FRESH, Pieces(init), e.data);
    }
  }

  /** Two connections that have been given the same bytes, in whatever pieces, are the same connection. */
  lemma SameBytesSameRun(env: Env, a: seq<Event>, b: seq<Event>)
    requires a != [] && b != [] && (forall e :: e in a ==> e.Input?) && (forall e :: e in b ==> e.Input?)
    requires Arrived(a) == Arrived(b) && LinesShort(Arrived(a))
    ensures Same(Run(env, a), Run(env, b))
  {
    hide Feed;
    hide FeedAll;
    hide LinesShort;
    hide Concat;
    InputRun(env, a);
    InputRun(env, b);
    assert Run(env, []) == FRESH;
    assert FRESH.buf + Arrived(a) == Arrived(a);
    SplittingIsInvisible(env, [], Pieces(a), Pieces(b));
  }
}
