/** The array the source copies the client's version line into: 256 bytes, of which the last is for the NUL. The model
    keeps the line whole; here is when it would have fitted. */
module VersionBuffer {
  import opened Bytes
  import opened Environment
  import opened RecordLayer
  import opened Session
  import opened ServiceInvariants
  import K = KexInvariants
  import opened Connection
  import opened Runs
  import opened Fragmentation

  const VERSION_BUF: nat := 256

  /** The line and its NUL are inside the array. */
  predicate CopyFits(line: seq<byte>) {
    |line| + 1 <= VERSION_BUF
  }

  lemma VersionTaken(env: Env, k: Core, line: seq<byte>)
    requires !k.state.StClosed?
    ensures TakeVersion(env, k, line).k.version == line && !TakeVersion(env, k, line).k.state.StVersion?
  {
    hide SendKexInit;
    var k1 := k.(version := line, state := StKex, kex := KxWaitKexInit);
    K.SendInit(env, k1);
  }

  /** When a whole version line has arrived, the copy is inside the array if and only if its LF is among the first 256
      bytes, or comes right after 256 of which the last is a CR. */
  lemma CopyFitsIff(env: Env, c: Conn)
    requires ConnOk(c) && c.core.state.StVersion? && LfAt(c.buf, 0) < |c.buf|
    requires IsSshLine(LineOf(c.buf, LfAt(c.buf, 0))) && IsSsh2(LineOf(c.buf, LfAt(c.buf, 0)))
    ensures var i := LfAt(c.buf, 0);
      var k := TryOne(env, c).0.core;
      && k.version == LineOf(c.buf, i)
      && (CopyFits(k.version) <==> i <= 255 || (i == 256 && c.buf[255] == CR))
  {
    hide TakeVersion;
    hide IsSshLine;
    hide IsSsh2;
    hide LfAt;
    hide TryOne;
    var i := LfAt(c.buf, 0);
    LineStep(env, c, c.buf, i);
    VersionTaken(env, c.core, LineOf(c.buf, i));
  }

  // ---- how long the version can come to be ----

  /** The version line of a stream, if it is one the server takes, is longer than the limit; where reads are bounded, it and
      every line before it fit the receive buffer. */
  predicate Exceeds(s: seq<byte>, bounded: bool, limit: nat)
    decreases |s|
  {
    var i := LfAt(s, 0);
    i < |s| && (bounded ==> i + 1 <= RX_BUF) &&
    (if IsSshLine(LineOf(s, i)) then IsSsh2(LineOf(s, i)) && |LineOf(s, i)| > limit
     else Exceeds(s[i + 1..], bounded, limit))
  }

  /** Every read has room for what it brings. */
  ghost predicate Within(env: Env, events: seq<Event>) {
    forall n :: 0 <= n < |events| && events[n].Input? ==>
      var c := Run(env, events[..n]);
      c.core.state.StClosed? || |c.buf| + |events[n].data| <= RX_BUF
  }

  predicate SmallVersion(k: Core, limit: nat) {
    |k.version| <= limit
  }

  predicate NoneExceeds(c: Conn, extra: seq<byte>, bounded: bool, limit: nat) {
    SmallVersion(c.core, limit) && (c.core.state.StVersion? ==> !Exceeds(c.buf + extra, bounded, limit))
  }

  lemma PacketVersion(env: Env, c: Conn)
    requires ConnOk(c) && Good(env, c.core) && !c.core.state.StVersion? && !c.core.state.StClosed?
    ensures Packet(env, c).0.core.version == c.core.version
  {
    hide RxStep;
    hide Deliver;
    hide Good;
    hide Onward;
    hide Inflow;
    RxDir(env, RxOf(c));
    var (x, res) := RxStep(env, RxOf(c));
    InDirKeeps(env, c.core, x.dir);
    var k := c.core.(inDir := x.dir);
    if res.Got? {
      DeliverOk(env, k, res.payload);
    } else {
      DisconnectVersion(env, k, DISC_PROTOCOL_ERROR, "bad packet length");
      DisconnectVersion(env, k, DISC_MAC_ERROR, "MAC mismatch");
      DisconnectVersion(env, k, DISC_PROTOCOL_ERROR, "bad padding");
    }
  }

  lemma DisconnectVersion(env: Env, k: Core, reason: uint32, msg: string)
    ensures Disconnect(env, k, reason, msg).version == k.version
  {
    hide SendPacket;
    SendSends(env, k, DisconnectMsg(reason, msg));
  }

  lemma LineVersion(env: Env, c: Conn, extra: seq<byte>, bounded: bool, limit: nat)
    requires ConnOk(c) && c.core.state.StVersion? && NoneExceeds(c, extra, bounded, limit) && (bounded ==> |c.buf| <= RX_BUF)
    ensures NoneExceeds(VersionLine(env, c).0, extra, bounded, limit)
  {
    hide Disconnect;
    hide TakeVersion;
    hide LfAt;
    hide IsSshLine;
    hide IsSsh2;
    LfMore(c.buf, extra);
    DisconnectVersion(env, c.core, DISC_PROTOCOL_ERROR, "version line too long");
    DisconnectVersion(env, c.core, DISC_PROTOCOL_ERROR, "only SSH 2.0 is supported");
    var i := LfAt(c.buf, 0);
    if i < |c.buf| {
      assert LineOf(c.buf + extra, i) == LineOf(c.buf, i);
      assert (c.buf + extra)[i + 1..] == c.buf[i + 1..] + extra;
      VersionTaken(env, c.core, LineOf(c.buf, i));
    }
  }

  lemma OneVersion(env: Env, c: Conn, extra: seq<byte>, bounded: bool, limit: nat)
    requires ConnOk(c) && Good(env, c.core) && NoneExceeds(c, extra, bounded, limit) && (bounded ==> |c.buf| <= RX_BUF)
    ensures NoneExceeds(TryOne(env, c).0, extra, bounded, limit)
  {
    hide VersionLine;
    hide Packet;
    hide Good;
    hide Exceeds;
    TryOneOk(env, c);
    if c.core.state.StVersion? {
      LineVersion(env, c, extra, bounded, limit);
    } else if !c.core.state.StClosed? {
      PacketVersion(env, c);
    }
  }

  lemma {:induction false} DrainVersion(env: Env, c: Conn, extra: seq<byte>, bounded: bool, limit: nat)
    requires ConnOk(c) && Good(env, c.core) && NoneExceeds(c, extra, bounded, limit) && (bounded ==> |c.buf| <= RX_BUF)
    ensures NoneExceeds(Drain(env, c), extra, bounded, limit)
    decreases |c.buf|
  {
    hide TryOne;
    hide Good;
    hide Forward;
    hide NoneExceeds;
    TryOneOk(env, c);
    OneVersion(env, c, extra, bounded, limit);
    DrainStep(env, c);
    var (c1, r) := TryOne(env, c);
    if r == 1 {
      DrainVersion(env, c1, extra, bounded, limit);
    }
  }

  lemma CallVersion(env: Env, c: Conn, e: Event)
    requires ConnOk(c) && !e.Input?
    ensures Apply(env, c, e).core.version == c.core.version && Apply(env, c, e).buf == c.buf
  {
    hide Apply;
    CallFrame(env, c, e);
  }

  lemma EventVersion(env: Env, init: seq<Event>, e: Event, rest: seq<byte>, bounded: bool, limit: nat)
    requires var c := Run(env, init);
      && NoneExceeds(c, (if e.Input? then e.data else []) + rest, bounded, limit)
      && (bounded && e.Input? && !c.core.state.StClosed? ==> |c.buf| + |e.data| <= RX_BUF)
    ensures NoneExceeds(Apply(env, Run(env, init), e), rest, bounded, limit)
  {
    hide Run;
    hide Good;
    hide Drain;
    hide Exceeds;
    hide SendVersion;
    hide ReadRing;
    hide WriteChunk;
    hide CloseChannel;
    hide Disconnect;
    var c := Run(env, init);
    RunOk(env, init);
    ApplyOk(env, c, e);
    if e.Input? {
      if !c.core.state.StClosed? {
        Associates(c.buf, e.data, rest);
        DrainVersion(env, Plus(c, e.data), rest, bounded, limit);
      }
    } else {
      CallVersion(env, c, e);
      assert [] + rest == rest;
    }
  }

  lemma WithinPrefix(env: Env, events: seq<Event>)
    requires Within(env, events) && events != []
    ensures var (init, e) := (events[..|events| - 1], events[|events| - 1]);
      var c := Run(env, init);
      && Within(env, init)
      && (e.Input? && !c.core.state.StClosed? ==> |c.buf| + |e.data| <= RX_BUF)
  {
    hide Run;
    var init := events[..|events| - 1];
    forall n | 0 <= n < |init| && init[n].Input?
      ensures var c := Run(env, init[..n]);
        c.core.state.StClosed? || |c.buf| + |init[n].data| <= RX_BUF
    {
      assert init[..n] == events[..n];
    }
  }

  lemma {:induction false} VersionSmall(env: Env, events: seq<Event>, rest: seq<byte>, bounded: bool, limit: nat)
    requires !Exceeds(Arrived(events) + rest, bounded, limit) && (bounded ==> Within(env, events))
    ensures NoneExceeds(Run(env, events), rest, bounded, limit)
    decreases |events|
  {
    hide Apply;
    hide Exceeds;
    hide Within;
    if events == [] {
      assert [] + rest == rest;
    } else {
      var init, e := events[..|events| - 1], events[|events| - 1];
      var d := if e.Input? then e.data else [];
      Associates(Arrived(init), d, rest);
      if bounded {
        WithinPrefix(env, events);
      }
      VersionSmall(env, init, d + rest, bounded, limit);
      EventVersion(env, init, e, rest, bounded, limit);
    }
  }

  lemma {:induction false} ShortNeverExceeds(s: seq<byte>)
    requires LinesShort(s)
    ensures !Exceeds(s, false, 254)
    decreases |s|
  {
    hide LfAt;
    hide IsSshLine;
    hide IsSsh2;
    var i := LfAt(s, 0);
    if i < |s| && !IsSshLine(LineOf(s, i)) {
      ShortNeverExceeds(s[i + 1..]);
    }
  }

  /** In every run whose lines are short the version is at most 254 bytes long, and the copy of it is inside the array. */
  lemma VersionFits(env: Env, events: seq<Event>)
    requires LinesShort(Arrived(events))
    ensures |Run(env, events).core.version| <= 254 && CopyFits(Run(env, events).core.version)
  {
    hide LinesShort;
    hide Run;
    hide Exceeds;
    assert Arrived(events) + [] == Arrived(events);
    ShortNeverExceeds(Arrived(events));
    VersionSmall(env, events, [], false, 254);
  }

  // ---- the exact condition ----

  lemma OneMore(env: Env, before: seq<Event>, d: seq<byte>)
    requires Within(env, before) && |Run(env, before).buf| + |d| <= RX_BUF
    ensures var events := before + [Input(d)];
      && Within(env, events) && Arrived(events) == Arrived(before) + d && Run(env, events) == Feed(env, Run(env, before), d)
  {
    hide Run;
    hide Feed;
    var events := before + [Input(d)];
    assert events[..|before|] == before;
    forall n | 0 <= n < |events| && events[n].Input?
      ensures var c := Run(env, events[..n]);
        c.core.state.StClosed? || |c.buf| + |events[n].data| <= RX_BUF
    {
      assert n < |before| ==> events[..n] == before[..n];
    }
    LastOfRun(env, events);
  }

  lemma LastOfRun(env: Env, events: seq<Event>)
    requires events != [] && events[|events| - 1].Input?
    ensures Run(env, events) == Feed(env, Run(env, events[..|events| - 1]), events[|events| - 1].data)
    ensures Arrived(events) == Arrived(events[..|events| - 1]) + events[|events| - 1].data
  {
    hide Feed;
  }

  /** Delivered line by line, a stream whose version line exceeds the limit has it taken whole. */
  lemma {:induction false} LineByLine(env: Env, before: seq<Event>, s: seq<byte>, limit: nat) returns (events: seq<Event>)
    requires Exceeds(s, true, limit) && Within(env, before)
    requires Run(env, before).core.state.StVersion? && Run(env, before).buf == []
    ensures Within(env, events) && Arrived(events) <= Arrived(before) + s && |Run(env, events).core.version| > limit
    decreases |s|
  {
    hide Run;
    hide Feed;
    hide Within;
    hide LfAt;
    hide LineOf;
    hide IsSshLine;
    hide IsSsh2;
    hide Good;
    hide Arrived;
    var i := LfAt(s, 0);
    var c, d := Run(env, before), s[..i + 1];
    SameLine(s, []);
    assert d + [] == d;
    RunOk(env, before);
    OneMore(env, before, d);
    events := before + [Input(d)];
    assert s == d + s[i + 1..];
    Associates(Arrived(before), d, s[i + 1..]);
    if IsSshLine(LineOf(s, i)) {
      LineTaken(env, c, d);
      VersionTaken(env, c.core, LineOf(s, i));
    } else {
      SkipLine(env, c, s, []);
      EmptyFeed(env, c);
      events := LineByLine(env, events, s[i + 1..], limit);
    }
  }

  /** Some way of delivering the beginning of a stream, in reads that have room for what they bring, makes the copy of the
      version leave its array. */
  ghost predicate SomeOverrun(env: Env, s: seq<byte>) {
    exists events :: Within(env, events) && Arrived(events) <= s && !CopyFits(Run(env, events).core.version)
  }

  lemma OnlyThen(env: Env, events: seq<Event>, s: seq<byte>)
    requires Within(env, events) && Arrived(events) <= s && !CopyFits(Run(env, events).core.version)
    ensures Exceeds(s, true, VERSION_BUF - 1)
  {
    hide Run;
    hide Exceeds;
    hide Within;
    hide Arrived;
    if !Exceeds(s, true, VERSION_BUF - 1) {
      assert Arrived(events) + s[|Arrived(events)|..] == s;
      VersionSmall(env, events, s[|Arrived(events)|..], true, VERSION_BUF - 1);
    }
  }

  /** For every stream: the copy can be made to leave the array if and only if the first line that begins with SSH- is one of
      SSH 2.0 with more than 255 bytes, and it and the lines before it fit the receive buffer. */
  lemma OverrunIff(env: Env, s: seq<byte>)
    ensures SomeOverrun(env, s) <==> Exceeds(s, true, VERSION_BUF - 1)
  {
    hide Run;
    hide Exceeds;
    hide Within;
    hide Arrived;
    if SomeOverrun(env, s) {
      var events :| Within(env, events) && Arrived(events) <= s && !CopyFits(Run(env, events).core.version);
      OnlyThen(env, events, s);
    }
    if Exceeds(s, true, VERSION_BUF - 1) {
      NothingRun(env);
      assert [] + s == s;
      var events := LineByLine(env, [], s, VERSION_BUF - 1);
    }
  }

  lemma NothingRun(env: Env)
    ensures Run(env, []) == FRESH && Within(env, []) && Arrived([]) == []
  {
  }

  // ---- a line that does not fit ----

  function LongLine(): (s: seq<byte>)
    ensures |s| == 256
  {
    Ascii("SSH-2.0-") + seq(248, _ => 97)
  }

  lemma LongLineShape()
    ensures IsSshLine(LongLine()) && IsSsh2(LongLine())
    ensures LfAt(LongLine() + [LF], 0) == 256 && LineOf(LongLine() + [LF], 256) == LongLine()
  {
    var a := Ascii("SSH-2.0-");
    var line := LongLine();
    assert line[..4] == a[..4] == Ascii("SSH-");
    assert line[..7] == a[..7] == Ascii("SSH-2.0");
    assert forall i :: 0 <= i < 8 ==> a[i] != LF;
    LfIs(line + [LF], 256);
    assert line[255] == 97;
  }

  /** A version line of 256 bytes that arrives whole is taken, one byte more than the array can hold. */
  lemma LongVersionTaken(env: Env)
    ensures |Run(env, [Input(LongLine() + [LF])]).core.version| == 256
    ensures !CopyFits(Run(env, [Input(LongLine() + [LF])]).core.version)
  {
    hide IsSshLine;
    hide IsSsh2;
    hide LfAt;
    hide LineOf;
    hide Good;
    hide Feed;
    hide LongLine;
    hide Run;
    LongLineShape();
    FreshOk(env);
    OneEvent(env, LongLine() + [LF]);
    LineTaken(env, FRESH, LongLine() + [LF]);
    VersionTaken(env, INIT, LongLine());
  }

  lemma OneEvent(env: Env, s: seq<byte>)
    ensures Run(env, [Input(s)]) == Feed(env, FRESH, s)
  {
    hide Feed;
    assert [Input(s)][..0] == [];
  }
}
