/** The promises of the session, for every environment and every run: safety of the login, the phases of the key
    exchange, rekey discipline, both windows, and what the wire carries. */
module SessionTheorems {
  import opened Bytes
  import opened Wire
  import opened Environment
  import opened RecordLayer
  import opened Records
  import opened Session
  import opened SessionFrames
  import opened ServiceInvariants
  import K = KexInvariants
  import opened Connection
  import opened Runs

  // ---- login ----

  /** SshAccept reports success only on shellReady; that takes a channel, which takes a login, which takes the
      password callback's consent earlier in the run. At most five refusals ever happen. */
  lemma SessionSafety(env: Env, events: seq<Event>)
    ensures var k := Run(env, events).core;
      && (k.state.StAuth? || k.state.StConn? ==> k.inDir.active && k.outDir.active && k.sid.Some?)
      && (k.chan.shellReady ==> k.chan.open)
      && (k.chan.open ==> k.login.authenticated)
      && (k.login.authenticated ==> true in k.hist.auths)
      && (k.state.StConn? ==> k.login.authenticated)
      && Refusals(k.hist.auths) <= 5
      && (Refusals(k.hist.auths) == 5 ==> k.state.StClosed?)
      && 1 <= k.chan.cols <= 999 && 1 <= k.chan.rows <= 999
  {
    hide Run;
    hide TraceOf;
    hide SeenOf;
    hide OutOk;
    hide InflowInv;
    hide OutflowInv;
    RunOk(env, events);
  }

  /** Nothing is taken back: the state's rank never falls, the session id is written once, the logs only grow. */
  lemma NothingTakenBack(env: Env, before: seq<Event>, after: seq<Event>)
    ensures var k, k' := Run(env, before).core, Run(env, before + after).core;
      && Rank(k.state) <= Rank(k'.state)
      && (k.sid.Some? ==> k'.sid == k.sid)
      && (k.hist.hashes != [] ==> k.sid == Some(k.hist.hashes[0]))
      && k.hist.sent <= k'.hist.sent && k.hist.handled <= k'.hist.handled
      && k.hist.dataIn <= k'.hist.dataIn && k.hist.dataRead <= k'.hist.dataRead
  {
    hide Run;
    hide TraceOf;
    hide SeenOf;
    hide OutOk;
    hide SvcInv;
    RunOk(env, before);
    RunOk(env, before + after);
    RunOnward(env, before, after);
  }

  // ---- key exchange ----

  /** While the connection is open the two directions are at most one key change apart, exactly between the server's
      NEWKEYS and the client's; KEXINITs pair up; a wrong guess is dropped at most once in an exchange. */
  lemma KexPhases(env: Env, events: seq<Event>)
    ensures var k := Run(env, events).core;
      !k.state.StClosed? ==>
      var (t, seen) := (TraceOf(k.hist.sent), SeenOf(k.hist.handled));
      && k.outDir.epoch == k.inDir.epoch + (if k.kex.KxWaitNewKeys? then 1 else 0)
      && t.newKeys == k.outDir.epoch && seen.newKeys == k.inDir.epoch
      && t.inits == seen.inits + (if k.kexInitSent then 1 else 0)
      && (k.kexInitSent <==> k.kex.KxWaitKexInit?)
      && (k.ignoreNext ==> k.kex.KxWaitDh?)
      && k.hist.dropped + (if k.ignoreNext then 1 else 0) <= 1
      && |k.hist.hashes| == k.outDir.epoch
      && k.clientKexInit == seen.lastInit && k.serverKexInit == t.lastInit
  {
    hide Run;
    hide TraceOf;
    hide SeenOf;
    hide OutOk;
    hide SvcInv;
    hide K.Agreed;
    hide K.OursIn;
    RunOk(env, events);
  }

  /** Between the KEXINIT at j and a later position i there is no NEWKEYS. */
  ghost predicate StillOpen(s: seq<Sent>, j: nat, i: nat) {
    j < i <= |s| && Is(s[j].payload, MSG_KEXINIT) && forall l :: j < l < i ==> !Is(s[l].payload, MSG_NEWKEYS)
  }

  lemma {:induction false} OpenMeans(s: seq<Sent>, j: nat)
    requires StillOpen(s, j, |s|)
    ensures TraceOf(s).open
    decreases |s|
  {
    var n := |s| - 1;
    if j < n {
      assert forall l :: j < l < n ==> s[..n][l] == s[l];
      OpenMeans(s[..n], j);
    }
  }

  lemma {:induction false} DisciplineMeans(s: seq<Sent>, i: nat, j: nat)
    requires TraceOf(s).disciplined && i < |s| && StillOpen(s, j, i)
    ensures !Is(s[i].payload, MSG_WINDOW_ADJUST) && !Is(s[i].payload, MSG_CHANNEL_DATA)
    decreases |s|
  {
    var n := |s| - 1;
    assert TraceOf(s[..n]).disciplined;
    assert forall l :: j <= l < n ==> s[..n][l] == s[l];
    if i < n {
      DisciplineMeans(s[..n], i, j);
    } else {
      OpenMeans(s[..n], j);
    }
  }

  /** Rekey discipline (RFC 4253 section 7.1): no channel data and no window adjust between the server's KEXINIT and
      its next NEWKEYS, and every packet is under the keys of the last NEWKEYS before it. */
  lemma RekeyDiscipline(env: Env, events: seq<Event>)
    ensures var s := Run(env, events).core.hist.sent;
      && (forall i: nat, j: nat :: i < |s| && StillOpen(s, j, i) ==>
           !Is(s[i].payload, MSG_WINDOW_ADJUST) && !Is(s[i].payload, MSG_CHANNEL_DATA))
      && (forall i :: 0 <= i < |s| ==> s[i].epoch == CountNewKeys(MsgsOf(s[..i])))
  {
    hide Run;
    hide TraceOf;
    hide SeenOf;
    hide SvcInv;
    hide K.OpenInv;
    hide StillOpen;
    hide Chain;
    hide CountNewKeys;
    hide MsgsOf;
    RunOk(env, events);
    var s := Run(env, events).core.hist.sent;
    forall i: nat, j: nat | i < |s| && StillOpen(s, j, i)
      ensures !Is(s[i].payload, MSG_WINDOW_ADJUST) && !Is(s[i].payload, MSG_CHANNEL_DATA)
    {
      DisciplineMeans(s, i, j);
    }
  }

  /** Record-layer round trip of everything the server ever sends: a receiver that starts in the clear and takes the
      server's keys at each NEWKEYS gets exactly the payloads, in order, and ends at the server's keystream
      position and sequence number. */
  lemma OutputDecodes(env: Env, events: seq<Event>)
    ensures var k := Run(env, events).core;
      var (got, x, left) := OpenAll(env, Rx(CLEAR, WireOf(k.hist.sent), false, 0), k.hist.outKeys);
      && got == Payloads(MsgsOf(k.hist.sent))
      && x.dir == k.outDir && x.buf == [] && left == []
  {
    hide Run;
    hide TraceOf;
    hide SeenOf;
    hide SvcInv;
    hide K.KexInv;
    hide SealAll;
    hide OpenAll;
    hide AllSendable;
    hide EpochsOk;
    hide Ledger;
    RunOk(env, events);
    var k := Run(env, events).core;
    StreamRoundTrip(env, CLEAR, MsgsOf(k.hist.sent), k.hist.outKeys, 0);
  }

  lemma EntryOf(env: Env, events: seq<Event>, j: nat)
    requires j < |Run(env, events).core.hist.sent|
    ensures var (s, keys) := (Run(env, events).core.hist.sent, Run(env, events).core.hist.outKeys);
      s[j].epoch <= |keys| && IsEntry(env, s[j], DirAfter(s[..j], keys, s[j].epoch))
  {
    hide Run;
    hide TraceOf;
    hide SeenOf;
    hide SvcInv;
    hide K.KexInv;
    hide SealAll;
    hide AllSendable;
    hide EpochsOk;
    hide DirAfter;
    hide IsEntry;
    RunOk(env, events);
  }

  /** Byte for byte what the j-th packet of any run is on the wire. Before the first NEWKEYS it is the plain record. After
      the e-th it is the plain record under the e-th keys' keystream, from as far into it as packets under these keys reach,
      and an HMAC over the packet's number modulo 2^32 and the plain record. */
  lemma SentRecords(env: Env, events: seq<Event>, j: nat, plain: seq<byte>, number: seq<byte>)
    requires j < |Run(env, events).core.hist.sent|
    requires IsRecord(plain, Run(env, events).core.hist.sent[j].payload, Run(env, events).core.hist.sent[j].pad)
    requires |number| == 4 && BeVal(number) == j % 0x1_0000_0000
    ensures var (s, keys) := (Run(env, events).core.hist.sent, Run(env, events).core.hist.outKeys);
      var (e, wire) := (s[j].epoch, s[j].wire);
      && e <= |keys| && 4 <= |s[j].pad| && |plain| % (if e > 0 then 16 else 8) == 0
      && (e == 0 ==> wire == plain)
      && (e > 0 ==>
            && |wire| == |plain| + (if keys[e - 1].macType.Sha512? then 64 else 32)
            && Ciphered(env, keys[e - 1], BytesUnder(s[..j], e), plain, wire[..|plain|])
            && wire[|plain|..] == Tag(env, keys[e - 1], number, plain))
  {
    hide Run;
    hide BeVal;
    hide Seal;
    hide Ciphered;
    hide Tag;
    hide BytesUnder;
    EntryOf(env, events, j);
    var (s, keys) := (Run(env, events).core.hist.sent, Run(env, events).core.hist.outKeys);
    SealedBytes(env, DirAfter(s[..j], keys, s[j].epoch), s[j].payload, s[j].pad, plain, number);
  }

  /** No byte of any keystream is used twice: of two packets under the same keys the later begins behind the earlier. */
  lemma {:induction false} KeystreamUsedOnce(s: seq<Sent>, i: nat, j: nat)
    requires i < j <= |s| && s[i].epoch > 0
    ensures BytesUnder(s[..i], s[i].epoch) + 5 + |s[i].payload| + |s[i].pad| <= BytesUnder(s[..j], s[i].epoch)
    decreases j
  {
    assert s[..j][..j - 1] == s[..j - 1] && s[..j][j - 1] == s[j - 1];
    if i < j - 1 {
      KeystreamUsedOnce(s, i, j - 1);
    }
  }

  /** Whenever the packet loop has run dry on an open connection, there is room for the next read. */
  lemma RoomToRead(env: Env, events: seq<Event>)
    ensures var c := Run(env, events);
      c.core.state.StClosed? || |c.buf| < 35064 < RX_BUF
  {
    hide Run;
    RunOk(env, events);
  }

  // ---- the client's window on us ----

  /** How much the client may still send, by everything that has crossed the connection. */
  function ClientWindow(k: Core): int {
    LOCAL_WINDOW + TraceOf(k.hist.sent).adjusts - |k.hist.dataIn|
  }

  /** At no point has the client sent more than its window: it knows of no more adjusts than were sent. */
  ghost predicate RespectsWindow(env: Env, events: seq<Event>) {
    forall n :: 0 <= n <= |events| ==> ClientWindow(Run(env, events[..n]).core) >= 0
  }

  lemma RespectsPrefix(env: Env, events: seq<Event>)
    requires RespectsWindow(env, events) && events != []
    ensures RespectsWindow(env, events[..|events| - 1])
    ensures ClientWindow(Run(env, events).core) >= 0
  {
    hide Run;
    hide ClientWindow;
    var init := events[..|events| - 1];
    forall n | 0 <= n <= |init|
      ensures ClientWindow(Run(env, init[..n]).core) >= 0
    {
      assert init[..n] == events[..n];
    }
    assert events[..|events|] == events;
  }

  /** Input loses nothing as long as the client keeps to its window. */
  lemma InputLosesNothing(k: Core, k': Core)
    requires InflowInv(k) && InflowInv(k') && Inflow(k, k') && !k.state.StClosed?
    requires k.hist.lost == 0 && ClientWindow(k') >= 0
    ensures k'.hist.lost == 0
  {
    hide TraceOf;
  }

  predicate NothingIn(k: Core, k': Core) {
    k'.hist.lost == k.hist.lost && k'.hist.dataIn == k.hist.dataIn
  }

  lemma CallLosesNothing(env: Env, c: Conn, e: Event)
    requires ConnOk(c) && !e.Input?
    ensures NothingIn(c.core, Apply(env, c, e).core)
  {
    hide Apply;
    CallFrame(env, c, e);
  }

  /** A closed connection takes no more input. */
  lemma ClosedInput(env: Env, c: Conn, d: seq<byte>)
    requires ConnOk(c) && c.core.state.StClosed?
    ensures Feed(env, c, d) == c
  {
  }

  lemma {:induction false} NothingLost(env: Env, events: seq<Event>)
    requires RespectsWindow(env, events)
    ensures Run(env, events).core.hist.lost == 0
    decreases |events|
  {
    hide RespectsWindow;
    hide ClientWindow;
    hide Apply;
    hide Good;
    if events != [] {
      var init, e := events[..|events| - 1], events[|events| - 1];
      RespectsPrefix(env, events);
      NothingLost(env, init);
      LastEventLosesNothing(env, init, e, events);
    }
  }

  lemma LastEventLosesNothing(env: Env, init: seq<Event>, e: Event, events: seq<Event>)
    requires events == init + [e] && Run(env, init).core.hist.lost == 0 && ClientWindow(Run(env, events).core) >= 0
    ensures Run(env, events).core.hist.lost == 0
  {
    hide ClientWindow;
    hide Feed;
    hide OutOk;
    hide K.KexInv;
    hide InflowInv;
    hide AuthInv;
    hide OutflowInv;
    hide Inflow;
    hide Onward;
    assert events[..|events| - 1] == init;
    var c := Run(env, init);
    RunOk(env, init);
    RunOk(env, events);
    if e.Input? {
      if c.core.state.StClosed? {
        ClosedInput(env, c, e.data);
      } else {
        InputOk(env, c, e.data);
        InputLosesNothing(c.core, Run(env, events).core);
      }
    } else {
      CallLosesNothing(env, c, e);
    }
  }

  /** Conservation and lossless delivery. For a client that respects its window, in every reachable state: RingPush
      has never dropped a byte, what SshRead has returned followed by what waits in the ring is exactly the
      CHANNEL_DATA received, and, while the connection is open, the client's window, the ring and `consumed` add up
      to 32768. */
  lemma LosslessDelivery(env: Env, events: seq<Event>)
    requires RespectsWindow(env, events)
    ensures var k := Run(env, events).core;
      && k.hist.lost == 0
      && k.hist.dataIn == k.hist.dataRead + k.ring
      && k.hist.dataRead <= k.hist.dataIn
      && (!k.state.StClosed? ==> ClientWindow(k) + |k.ring| + k.consumed == LOCAL_WINDOW)
  {
    hide Run;
    hide TraceOf;
    hide SeenOf;
    hide OutOk;
    hide K.KexInv;
    hide AuthInv;
    hide OutflowInv;
    RunOk(env, events);
    NothingLost(env, events);
    assert events[..|events|] == events;
    SmallLow32(|Run(env, events).core.hist.dataRead| - TraceOf(Run(env, events).core.hist.sent).adjusts);
  }

  lemma SmallLow32(n: int)
    ensures 0 <= n < TWO32 ==> Low32(n) == n
  {
  }

  // ---- our window on the client ----

  /** What SshWrite may still send is what the client has granted minus everything sent, so the client's grant is
      never exceeded; modulo 2^32 even when the client's adjusts overflow the counter. */
  lemma OutboundWindow(env: Env, events: seq<Event>)
    ensures var k := Run(env, events).core;
      var data := TraceOf(k.hist.sent).data;
      && (!k.hist.wrapped ==> |data| <= k.hist.granted)
      && (!k.state.StClosed? && k.chan.open ==> k.chan.window == Low32(k.hist.granted - |data|))
      && (!k.state.StClosed? && k.chan.open && !k.hist.wrapped ==> k.chan.window == k.hist.granted - |data|)
  {
    hide Run;
    hide TraceOf;
    hide SeenOf;
    hide OutOk;
    hide K.KexInv;
    hide AuthInv;
    hide InflowInv;
    RunOk(env, events);
  }

  /** One round of SshWrite sends one packet: byte 94, the client's number for the channel, and as a string the front of the
      buffer, as much of it as the window, the client's packet limit and the chunk size allow; nothing stands behind it, and
      all of it leaves the window. */
  lemma ChunkSent(env: Env, k: Core, buf: seq<byte>)
    requires MayWrite(k)
    ensures var r, n := WriteChunk(env, k, buf), ChunkLen(k, |buf|);
      && TraceOf(r.k.hist.sent) == (var t := TraceOf(k.hist.sent); t.(data := t.data + buf[..n], disciplined := t.disciplined && !t.open))
      && |r.k.hist.sent| == |k.hist.sent| + 1 && k.hist.sent <= r.k.hist.sent
      && (var p := r.k.hist.sent[|k.hist.sent|].payload;
          Is(p, 94) && Fields(p, [WORD, NAME]) == Some([IU32(k.chan.remote), IStr(buf[..n])]))
      && (if r.ok then r.k.chan == k.chan.(window := k.chan.window - n) else r.k.state.StClosed?)
      && n <= |buf| && n <= k.chan.window && n <= k.chan.maxPkt && n <= 16384
      && (n == |buf| || n == k.chan.window || n == k.chan.maxPkt || n == 16384)
      && (n == 0 <==> buf == [] || k.chan.maxPkt == 0)
  {
    hide SendPacket;
    hide TraceOf;
    hide DataMsg;
    hide Fields;
    hide Message;
    hide DataIn;
    var n := ChunkLen(k, |buf|);
    DataMsgShape(k, buf[..n]);
    Send(env, k, DataMsg(k, buf[..n]));
  }
}
