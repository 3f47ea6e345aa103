/** What becomes of the client's window when SshRead cannot pay it back at once: when it always does, and how it can come
    to never do so again. */
module Starvation {
  import opened Bytes
  import opened Wire
  import opened Algorithms
  import opened Environment
  import opened RecordLayer
  import opened KeySchedule
  import opened Session
  import opened SessionFrames
  import opened ServiceInvariants
  import K = KexInvariants
  import opened Connection
  import opened Runs
  import opened SessionTheorems
  import KA = KeyAgreement
  import HC = HonestClient

  const HALF: uint32 := LOCAL_WINDOW / 2

  // ---- one read ----

  /** What a read leaves unpaid, told before the call: half a window or more exactly when that much will be owed and the
      ring is empty, or no packet may be sent now, or the socket will refuse the adjust. */
  lemma ReadPaysBack(env: Env, k: Core, max: nat)
    requires !k.state.StClosed?
    ensures var owed := Low32(k.consumed + Taken(k, max));
      ReadRing(env, k, max).consumed >= HALF <==>
        owed >= HALF && (k.ring == [] || !CanSendNow(k) || !WriteOk(env, k.writes))
  {
    hide SendPacket;
    hide PutU32;
    hide WriteOk;
    if k.ring != [] {
      var k1 := TakeRing(k, Taken(k, max));
      SentIfTaken(env, k1, WindowAdjustMsg(k1));
      SendSends(env, k1, WindowAdjustMsg(k1));
    }
  }

  /** A packet goes out exactly if the socket takes it. */
  lemma SentIfTaken(env: Env, k: Core, payload: seq<byte>)
    requires !k.state.StClosed? && |payload| <= MAX_PAYLOAD
    ensures SendPacket(env, k, payload).ok == WriteOk(env, k.writes)
  {
    hide Seal;
    hide PadLen;
    hide WriteOk;
  }

  // ---- reads that can always pay ----

  /** Less than half a window is unpaid. */
  predicate PaidUp(k: Core) {
    k.state.StClosed? || k.consumed < HALF
  }

  /** A read now would take its bytes to half a window or more, and could not pay. */
  predicate HeldBack(k: Core, max: nat) {
    !k.state.StClosed? && k.ring != [] && !CanSendNow(k) && k.consumed + Taken(k, max) >= HALF
  }

  ghost predicate AlwaysPaidUp(env: Env, events: seq<Event>) {
    forall n :: 0 <= n <= |events| ==> PaidUp(Run(env, events[..n]).core)
  }

  ghost predicate NoneHeldBack(env: Env, events: seq<Event>) {
    forall n :: 0 <= n < |events| && events[n].ReadCall? ==> !HeldBack(Run(env, events[..n]).core, events[n].max)
  }

  predicate SameDebt(k: Core, k': Core) {
    k'.consumed == k.consumed && k'.ring == k.ring
  }

  /** Only input and reads move bytes in or out of the ring. */
  lemma OtherCallsOweNothing(env: Env, c: Conn, e: Event)
    requires ConnOk(c) && !e.Input? && !e.ReadCall?
    ensures SameDebt(c.core, Apply(env, c, e).core)
  {
    hide Apply;
    CallFrame(env, c, e);
  }

  lemma InputOwesNothing(env: Env, events: seq<Event>, d: seq<byte>)
    ensures Feed(env, Run(env, events), d).core.consumed == Run(env, events).core.consumed
  {
    hide Run;
    hide Feed;
    hide Good;
    hide Onward;
    hide SameFlowTrace;
    RunOk(env, events);
    InputOk(env, Run(env, events), d);
  }

  /** One event: what was paid up stays so unless it is a read that is held back. */
  lemma PaymentStep(env: Env, init: seq<Event>, e: Event)
    requires PaidUp(Run(env, init).core)
    ensures PaidUp(Apply(env, Run(env, init), e).core) <==> !(e.ReadCall? && HeldBack(Run(env, init).core, e.max))
  {
    hide Run;
    hide Feed;
    hide Good;
    hide SendVersion;
    hide ReadRing;
    hide WriteChunk;
    hide CloseChannel;
    hide Disconnect;
    var c := Run(env, init);
    RunOk(env, init);
    ApplyOk(env, c, e);
    if c.core.state.StClosed? {
    } else if e.Input? {
      InputOwesNothing(env, init, e.data);
    } else if e.ReadCall? {
      ReadLeaves(env, c.core, e.max);
    } else {
      OtherCallsOweNothing(env, c, e);
    }
  }

  lemma ReadLeaves(env: Env, k: Core, max: nat)
    requires Good(env, k) && !k.state.StClosed? && k.consumed < HALF
    ensures PaidUp(ReadRing(env, k, max)) <==> !HeldBack(k, max)
  {
    hide SendPacket;
    hide PutU32;
    hide Good;
    hide SentOne;
    hide TakeRing;
    RingFits(env, k);
    if k.ring != [] {
      TakenCounts(k, Taken(k, max));
      var k1 := TakeRing(k, Taken(k, max));
      SendSends(env, k1, WindowAdjustMsg(k1));
      Send(env, k1, WindowAdjustMsg(k1));
    }
  }

  lemma TakenCounts(k: Core, n: nat)
    requires n <= |k.ring| < RING_SIZE && k.consumed < HALF
    ensures var k1 := TakeRing(k, n);
      && k1.consumed == k.consumed + n && k1.state == k.state && k1.chan == k.chan && k1.kex == k.kex
  {
  }

  lemma RingFits(env: Env, k: Core)
    requires Good(env, k)
    ensures |k.ring| < RING_SIZE
  {
    hide K.KexInv;
    hide OutOk;
  }

  lemma PaymentAt(env: Env, events: seq<Event>, n: nat)
    requires n < |events| && PaidUp(Run(env, events[..n]).core)
    ensures PaidUp(Run(env, events[..n + 1]).core)
      <==> !(events[n].ReadCall? && HeldBack(Run(env, events[..n]).core, events[n].max))
  {
    hide PaidUp;
    hide HeldBack;
    hide Apply;
    assert events[..n + 1][..n] == events[..n];
    PaymentStep(env, events[..n], events[n]);
  }

  lemma NothingOwedYet(env: Env)
    ensures PaidUp(Run(env, []).core)
  {
  }

  lemma {:induction false} PaidUpTo(env: Env, events: seq<Event>, n: nat)
    requires n <= |events| && NoneHeldBack(env, events)
    ensures PaidUp(Run(env, events[..n]).core)
    decreases n
  {
    hide HeldBack;
    hide PaidUp;
    hide Run;
    if n == 0 {
      NothingOwedYet(env);
      assert events[..0] == [];
    } else {
      PaidUpTo(env, events, n - 1);
      PaymentAt(env, events, n - 1);
    }
  }

  /** Exactly when the debt stays small: at every point of a run less than half a window is unpaid, or the connection is
      closed, if and only if no read of the run is held back. */
  lemma PaidUpIff(env: Env, events: seq<Event>)
    ensures AlwaysPaidUp(env, events) <==> NoneHeldBack(env, events)
  {
    hide Run;
    hide HeldBack;
    hide PaidUp;
    if AlwaysPaidUp(env, events) {
      forall n | 0 <= n < |events| && events[n].ReadCall?
        ensures !HeldBack(Run(env, events[..n]).core, events[n].max)
      {
        PaymentAt(env, events, n);
      }
    }
    if NoneHeldBack(env, events) {
      forall n | 0 <= n <= |events|
        ensures PaidUp(Run(env, events[..n]).core)
      {
        PaidUpTo(env, events, n);
      }
    }
  }

  /** More than half of the client's window is its own or waits in the ring. */
  ghost predicate NotStarved(k: Core) {
    k.state.StClosed? || ClientWindow(k) + |k.ring| > LOCAL_WINDOW - HALF
  }

  lemma PaidUpIsNotStarved(env: Env, events: seq<Event>, n: nat)
    requires RespectsWindow(env, events) && n <= |events|
    ensures PaidUp(Run(env, events[..n]).core) <==> NotStarved(Run(env, events[..n]).core)
  {
    hide Run;
    hide ClientWindow;
    forall m | 0 <= m <= |events[..n]|
      ensures ClientWindow(Run(env, events[..n][..m]).core) >= 0
    {
      assert events[..n][..m] == events[..m];
    }
    LosslessDelivery(env, events[..n]);
  }

  /** So a client within its window is never starved, at any point of a run, if and only if no read of it is held back. */
  lemma NeverStarved(env: Env, events: seq<Event>)
    requires RespectsWindow(env, events)
    ensures (forall n :: 0 <= n <= |events| ==> NotStarved(Run(env, events[..n]).core)) <==> NoneHeldBack(env, events)
  {
    hide Run;
    hide PaidUp;
    hide NotStarved;
    hide RespectsWindow;
    hide NoneHeldBack;
    PaidUpIff(env, events);
    forall n | 0 <= n <= |events|
      ensures PaidUp(Run(env, events[..n]).core) <==> NotStarved(Run(env, events[..n]).core)
    {
      PaidUpIsNotStarved(env, events, n);
    }
  }

  // ---- the dead end ----

  /** The socket takes everything, and X25519 refuses no point. */
  ghost predicate Willing(env: Env) {
    (forall n :: WriteOk(env, n)) && forall a: Bytes32, b: Bytes32 :: DhShared(env, a, b).Some?
  }

  /** An ordinary moment of a session: the channel is open, nothing is waiting, no key exchange is under way. */
  predicate AtEase(k: Core) {
    k.state.StConn? && k.chan.open && !k.chan.closeSent && k.kex.KxIdle? && k.ring == []
  }

  predicate SameSession(k: Core, k': Core) {
    k'.state == k.state && k'.chan == k.chan && k'.ring == k.ring && k'.consumed == k.consumed
  }

  lemma SendSucceeds(env: Env, k: Core, payload: seq<byte>)
    requires Willing(env) && !k.state.StClosed? && |payload| <= MAX_PAYLOAD
    ensures var r := SendPacket(env, k, payload);
      && r.ok && SameSession(k, r.k) && r.k.kex == k.kex && r.k.ignoreNext == k.ignoreNext && r.k.next == k.next
      && r.k.clientKexInit == k.clientKexInit
  {
    hide Seal;
    hide PadLen;
  }

  function DataPacket(data: seq<byte>): seq<byte> {
    [MSG_CHANNEL_DATA] + (PutU32(0) + Str(data))
  }

  lemma DataArrives(env: Env, k: Core, data: seq<byte>)
    requires AtEase(k) && |data| <= LOCAL_WINDOW
    ensures var r := Deliver(env, k, DataPacket(data));
      && r.ok && SameSession(k.(ring := data), r.k) && r.k.kex == k.kex && r.k.kexInitSent == k.kexInitSent
      && r.k.hist.dataIn == k.hist.dataIn + data
  {
    hide RStr;
    hide PutU32;
    hide Fail;
    var p := DataPacket(data);
    var body := PutU32(0) + Str(data);
    assert p[1..] == body;
    GetPut(0, Str(data));
    assert RU32(RInit(body)) == (0, Cursor(body, 4, false)) by { assert body[0..] == body; }
    assert body == PutU32(0) + (PutU32(|data|) + data) + [];
    ReadStrBack(PutU32(0), data, []);
    assert [] + data == data && data[..|data|] == data;
  }

  /** A client that offers the server's own lists is answered and agreed with. */
  lemma OwnListsAgree(env: Env, k: Core)
    requires K.OursIn(k.clientKexInit)
    ensures var r := Negotiate(env, k);
      && r.ok && SameSession(k, r.k) && r.k.kex == k.kex && !r.k.ignoreNext
      && r.k.hist == k.hist
  {
    hide ParseKex;
    hide Pick;
    hide Fail;
    hide EncKeyLen;
    hide MacTypeOf;
    hide Join;
    OwnListsPickHeads();
    assert OUR_LISTS.firstFollows == 0;
  }

  /** The exchange has begun, whichever side did. */
  lemma ExchangeOpens(env: Env, k: Core, cookie: seq<byte>)
    requires Willing(env) && !k.state.StClosed? && !k.state.StVersion? && |cookie| == 16
    requires k.kex.KxIdle? || k.kex.KxWaitKexInit?
    ensures var r := Deliver(env, k, KexInitMsg(cookie));
      && r.ok && SameSession(k, r.k) && r.k.kex.KxWaitDh? && !r.k.ignoreNext
      && r.k.hist.dataIn == k.hist.dataIn
  {
    hide SendPacket;
    hide KexInitMsg;
    hide Negotiate;
    hide Fail;
    hide K.OursIn;
    hide HandleService;
    K.OurKexInit(cookie);
    var p := KexInitMsg(cookie);
    var k1 := k.(clientKexInit := p, hist := k.hist.(handled := k.hist.handled + [p], dropped := 0));
    var mine := KexInitMsg(Random(env, k1.drawn, 16));
    K.OurKexInit(Random(env, k1.drawn, 16));
    var k2 := k1.(drawn := k1.drawn + 16, serverKexInit := mine, kexInitSent := true);
    SendSucceeds(env, k2, mine);
    var r := if k1.kexInitSent then Ret(k1, true) else SendPacket(env, k2, mine);
    assert k1.kexInitSent || SendKexInit(env, k1) == r;
    OwnListsAgree(env, r.k.(kexInitSent := false));
    assert Deliver(env, k, p) == OnKexInit(env, k.(hist := k.hist.(handled := k.hist.handled + [p])), p);
  }

  lemma ReadUnpaid(env: Env, k: Core)
    requires k.kex.KxWaitDh? && k.ring != []
    ensures ReadRing(env, k, |k.ring|) == TakeRing(k, |k.ring|)
  {
  }

  lemma ExchangeEnds(env: Env, k: Core, secret: Bytes32)
    requires Willing(env) && !k.state.StClosed? && !k.state.StVersion? && k.kex.KxWaitDh? && !k.ignoreNext
    ensures var r := Deliver(env, k, HC.DhInit(env, secret));
      && r.ok && SameSession(k, r.k) && r.k.kex.KxWaitNewKeys?
      && r.k.hist.dataIn == k.hist.dataIn
  {
    hide FinishKex;
    hide OnKexDhInit;
    hide DhShared;
    KA.DhDelivered(env, k, secret);
    var k1 := k.(hist := k.hist.(handled := k.hist.handled + [HC.DhInit(env, secret)]));
    KA.DhAnswer(env, k1, secret);
    var priv := Random(env, k1.drawn, 32);
    assert DhShared(env, priv, DhPublic(env, secret)).Some?;
    FinishSucceeds(env, k1.(drawn := k1.drawn + 32), DhPublic(env, secret), DhPublic(env, priv),
                   DhShared(env, priv, DhPublic(env, secret)).value);
  }

  lemma FinishSucceeds(env: Env, k: Core, qc: seq<byte>, qs: seq<byte>, shared: seq<byte>)
    requires Willing(env) && !k.state.StClosed? && |qs| == 32
    ensures var r := FinishKex(env, k, qc, qs, shared);
      && r.ok && SameSession(k, r.k) && r.k.kex.KxWaitNewKeys? && r.k.hist.dataIn == k.hist.dataIn
  {
    hide SendPacket;
    hide CutKeys;
    hide HashFor;
    hide MpintOf;
    hide HostKeyBlob;
    hide Willing;
    var h := HashFor(env, k, qc, qs, shared);
    var sid := if k.sid.Some? then k.sid.value else h;
    var k1 := k.(sid := Some(sid), hist := k.hist.(hashes := k.hist.hashes + [h]));
    KA.BlobSmall(env);
    SendSucceeds(env, k1, KexReply(env, qs, h));
    SendSucceeds(env, SendPacket(env, k1, KexReply(env, qs, h)).k, [MSG_NEWKEYS]);
  }

  lemma NewKeysTaken(env: Env, k: Core)
    requires !k.state.StClosed? && !k.state.StVersion? && k.kex.KxWaitNewKeys?
    ensures var r := Deliver(env, k, [MSG_NEWKEYS]);
      && r.ok && SameSession(k.(state := if k.state.StKex? then StAuth else k.state), r.k) && r.k.kex.KxIdle? && r.k.hist.dataIn == k.hist.dataIn
  {
    hide Zeros;
    hide Install;
  }

  /** What the two sides do next: the client sends a packet, or the server does anything but take input. */
  datatype Move = Sends(payload: seq<byte>) | Does(e: Event)

  function After(env: Env, k: Core, m: Move): Core {
    if k.state.StClosed? then k
    else
      match m
      case Sends(p) => Deliver(env, k, p).k
      case Does(e) => if e.Input? then k else KA.CallOn(env, k, e)
  }

  function AfterAll(env: Env, k: Core, moves: seq<Move>): Core
    decreases |moves|
  {
    if moves == [] then k else AfterAll(env, After(env, k, moves[0]), moves[1..])
  }

  /** The client never sends more than its window. */
  ghost predicate InWindow(env: Env, k: Core, moves: seq<Move>)
    decreases |moves|
  {
    ClientWindow(k) >= 0 && (moves == [] || InWindow(env, After(env, k, moves[0]), moves[1..]))
  }

  /** Nothing to read, and nothing the client may send. */
  predicate Stuck(k: Core) {
    k.ring == [] && k.consumed == LOCAL_WINDOW && ClientWindow(k) == 0
  }

  lemma PacketKeepsStuck(env: Env, k: Core, p: seq<byte>)
    requires Good(env, k) && !k.state.StClosed? && Stuck(k) && ClientWindow(Deliver(env, k, p).k) >= 0
    ensures Stuck(Deliver(env, k, p).k)
  {
    hide Deliver;
    hide TraceOf;
    hide K.KexInv;
    hide OutOk;
    hide AuthInv;
    hide OutflowInv;
    DeliverOk(env, k, p);
  }

  lemma SendGrantsNothing(env: Env, k: Core, payload: seq<byte>)
    requires Plainly(payload)
    ensures ClientWindow(SendPacket(env, k, payload).k) == ClientWindow(k)
  {
    hide SendPacket;
    hide TraceOf;
    hide OutOk;
    if k.state.StClosed? {
      ClosedSend(env, k, payload);
    } else {
      QuietSend(env, k, payload);
    }
  }

  lemma ClosedSend(env: Env, k: Core, payload: seq<byte>)
    requires k.state.StClosed?
    ensures SendPacket(env, k, payload).k == k
  {
  }

  lemma CloseGrantsNothing(env: Env, k: Core, exitStatus: uint32)
    ensures ClientWindow(CloseChannel(env, k, exitStatus)) == ClientWindow(k)
  {
    hide SendPacket;
    hide PutU32;
    hide TraceOf;
    var m := [MSG_CHANNEL_REQUEST] + PutU32(k.chan.remote) + Str(Ascii("exit-status")) + [0] + PutU32(exitStatus);
    SendGrantsNothing(env, k, m);
    var k1 := SendPacket(env, k, m).k;
    SendGrantsNothing(env, k1, [MSG_CHANNEL_EOF] + PutU32(k1.chan.remote));
    var k2 := SendChannelReply(env, k1, MSG_CHANNEL_EOF).k;
    SendGrantsNothing(env, k2, [MSG_CHANNEL_CLOSE] + PutU32(k2.chan.remote));
  }

  lemma WriteGrantsNothing(env: Env, k: Core, data: seq<byte>)
    ensures ClientWindow(WriteChunk(env, k, data).k) == ClientWindow(k)
  {
    hide SendPacket;
    hide TraceOf;
    hide DataMsg;
    if MayWrite(k) {
      ChunkSent(env, k, data);
      WriteSends(env, k, data);
    }
  }

  lemma GiveUpGrantsNothing(env: Env, k: Core, timeout: bool)
    ensures ClientWindow(Disconnect(env, k, DISC_BY_APPLICATION, GiveUpNote(timeout))) == ClientWindow(k)
  {
    hide SendPacket;
    hide TraceOf;
    if !k.state.StClosed? {
      SendGrantsNothing(env, k, DisconnectMsg(DISC_BY_APPLICATION, GiveUpNote(timeout)));
    }
  }

  lemma CallKeepsStuck(env: Env, k: Core, e: Event)
    requires Stuck(k) && !e.Input?
    ensures Stuck(KA.CallOn(env, k, e))
  {
    hide WriteChunk;
    hide CloseChannel;
    hide Disconnect;
    hide TraceOf;
    var c := Conn(k, [], false, 0);
    if !e.ReadCall? {
      OtherCallsOweNothing(env, c, e);
    }
    match e
    case WriteCall(d) => WriteGrantsNothing(env, k, d);
    case CloseCall(s) => CloseGrantsNothing(env, k, s);
    case GiveUp(t) => GiveUpGrantsNothing(env, k, t);
    case _ =>
  }

  /** Once stuck, stuck for as long as the connection lasts: no read, no write and no packet a client within its window can
      send changes it. */
  lemma {:induction false} StuckStays(env: Env, k: Core, moves: seq<Move>)
    requires Good(env, k) && InWindow(env, k, moves) && (k.state.StClosed? || Stuck(k))
    ensures var k' := AfterAll(env, k, moves);
      k'.state.StClosed? || Stuck(k')
    decreases |moves|
  {
    hide Good;
    hide Stuck;
    hide ClientWindow;
    hide Deliver;
    hide KA.CallOn;
    if moves != [] {
      StuckStep(env, k, moves[0]);
      StuckStays(env, After(env, k, moves[0]), moves[1..]);
    }
  }

  lemma StuckStep(env: Env, k: Core, m: Move)
    requires Good(env, k) && (k.state.StClosed? || Stuck(k)) && ClientWindow(After(env, k, m)) >= 0
    ensures var k' := After(env, k, m);
      Good(env, k') && (k'.state.StClosed? || Stuck(k'))
  {
    hide Good;
    hide Stuck;
    hide ClientWindow;
    hide Deliver;
    hide KA.CallOn;
    hide Forward;
    if !k.state.StClosed? {
      match m
      case Sends(p) =>
        DeliverOk(env, k, p);
        PacketKeepsStuck(env, k, p);
      case Does(e) =>
        if !e.Input? {
          KA.CallKeepsExchange(env, k, e);
          CallKeepsStuck(env, k, e);
        }
    }
  }

  /** The five moves that get there: the client uses up its window and asks for new keys, the program reads what came, and
      the exchange is finished. */
  function ToTheEnd(env: Env, data: seq<byte>, cookie: seq<byte>, secret: Bytes32): seq<Move> {
    [Sends(DataPacket(data)), Sends(KexInitMsg(cookie)), Does(ReadCall(|data|)), Sends(HC.DhInit(env, secret)), Sends([MSG_NEWKEYS])]
  }

  lemma Moves(env: Env, k: Core, m: Move, moves: seq<Move>)
    ensures AfterAll(env, k, [m] + moves) == AfterAll(env, After(env, k, m), moves)
  {
    assert ([m] + moves)[1..] == moves;
  }

  lemma Arrives(env: Env, k: Core, data: seq<byte>, cookie: seq<byte>, secret: Bytes32)
    requires Willing(env) && AtEase(k) && !k.kexInitSent && |cookie| == 16
    requires data != [] && k.consumed + |data| == LOCAL_WINDOW
    ensures var k5 := AfterAll(env, k, ToTheEnd(env, data, cookie, secret));
      AtEase(k5) && k5.consumed == LOCAL_WINDOW && k5.hist.dataIn == k.hist.dataIn + data
  {
    hide Deliver;
    hide After;
    hide AfterAll;
    hide Willing;
    hide DataPacket;
    hide KexInitMsg;
    hide HC.DhInit;
    var m := ToTheEnd(env, data, cookie, secret);
    var k1 := FirstMove(env, k, data);
    var k2 := SecondMove(env, k1, cookie);
    var k3 := ThirdMove(env, k2);
    var k4 := FourthMove(env, k3, secret);
    var k5 := FifthMove(env, k4);
    assert m == [m[0]] + ([m[1]] + ([m[2]] + ([m[3]] + ([m[4]] + []))));
    Moves(env, k, m[0], [m[1]] + ([m[2]] + ([m[3]] + ([m[4]] + []))));
    Moves(env, k1, m[1], [m[2]] + ([m[3]] + ([m[4]] + [])));
    Moves(env, k2, m[2], [m[3]] + ([m[4]] + []));
    Moves(env, k3, m[3], [m[4]] + []);
    Moves(env, k4, m[4], []);
    NoMoves(env, k5);
  }

  lemma NoMoves(env: Env, k: Core)
    ensures AfterAll(env, k, []) == k
  {
  }

  lemma FirstMove(env: Env, k: Core, data: seq<byte>) returns (k1: Core)
    requires AtEase(k) && |data| <= LOCAL_WINDOW
    ensures k1 == After(env, k, Sends(DataPacket(data))) && SameSession(k.(ring := data), k1)
    ensures k1.kex.KxIdle? && k1.kexInitSent == k.kexInitSent && k1.hist.dataIn == k.hist.dataIn + data
  {
    hide Deliver;
    hide DataPacket;
    DataArrives(env, k, data);
    k1 := After(env, k, Sends(DataPacket(data)));
  }

  lemma SecondMove(env: Env, k: Core, cookie: seq<byte>) returns (k2: Core)
    requires Willing(env) && k.state.StConn? && k.kex.KxIdle? && !k.kexInitSent && |cookie| == 16
    ensures k2 == After(env, k, Sends(KexInitMsg(cookie))) && SameSession(k, k2)
    ensures k2.kex.KxWaitDh? && !k2.ignoreNext && k2.hist.dataIn == k.hist.dataIn
  {
    hide Deliver;
    hide KexInitMsg;
    ExchangeOpens(env, k, cookie);
    k2 := After(env, k, Sends(KexInitMsg(cookie)));
  }

  lemma ThirdMove(env: Env, k: Core) returns (k3: Core)
    requires k.state.StConn? && k.kex.KxWaitDh? && k.ring != [] && k.consumed + |k.ring| == LOCAL_WINDOW
    ensures k3 == After(env, k, Does(ReadCall(|k.ring|)))
    ensures k3.state == k.state && k3.chan == k.chan && k3.ring == [] && k3.consumed == LOCAL_WINDOW
    ensures k3.kex == k.kex && k3.ignoreNext == k.ignoreNext && k3.hist.dataIn == k.hist.dataIn
  {
    hide ReadRing;
    ReadUnpaid(env, k);
    k3 := After(env, k, Does(ReadCall(|k.ring|)));
  }

  lemma FourthMove(env: Env, k: Core, secret: Bytes32) returns (k4: Core)
    requires Willing(env) && k.state.StConn? && k.kex.KxWaitDh? && !k.ignoreNext
    ensures k4 == After(env, k, Sends(HC.DhInit(env, secret))) && SameSession(k, k4)
    ensures k4.kex.KxWaitNewKeys? && k4.hist.dataIn == k.hist.dataIn
  {
    hide Deliver;
    hide HC.DhInit;
    ExchangeEnds(env, k, secret);
    k4 := After(env, k, Sends(HC.DhInit(env, secret)));
  }

  lemma FifthMove(env: Env, k: Core) returns (k5: Core)
    requires k.state.StConn? && k.kex.KxWaitNewKeys?
    ensures k5 == After(env, k, Sends([MSG_NEWKEYS])) && SameSession(k, k5)
    ensures k5.kex.KxIdle? && k5.hist.dataIn == k.hist.dataIn
  {
    hide Deliver;
    NewKeysTaken(env, k);
    k5 := After(env, k, Sends([MSG_NEWKEYS]));
  }

  function Granted(k: Core): nat {
    TraceOf(k.hist.sent).adjusts
  }

  lemma PacketGrantsNothing(env: Env, k: Core, p: seq<byte>)
    requires Good(env, k) && !k.state.StClosed?
    ensures Good(env, After(env, k, Sends(p))) && Granted(After(env, k, Sends(p))) == Granted(k)
  {
    hide Good;
    hide Deliver;
    hide TraceOf;
    DeliverOk(env, k, p);
  }

  lemma UnpaidReadGrantsNothing(env: Env, k: Core)
    requires Good(env, k) && !k.state.StClosed? && k.kex.KxWaitDh? && k.ring != []
    ensures var k' := After(env, k, Does(ReadCall(|k.ring|)));
      Good(env, k') && Granted(k') == Granted(k)
  {
    hide Good;
    hide ReadRing;
    hide TraceOf;
    ReadUnpaid(env, k);
    ReadRingOk(env, k, |k.ring|);
  }

  lemma NothingGranted(env: Env, k: Core, data: seq<byte>, cookie: seq<byte>, secret: Bytes32)
    requires Good(env, k) && Willing(env) && AtEase(k) && !k.kexInitSent && |cookie| == 16
    requires data != [] && k.consumed + |data| == LOCAL_WINDOW
    ensures var k5 := AfterAll(env, k, ToTheEnd(env, data, cookie, secret));
      Good(env, k5) && Granted(k5) == Granted(k)
  {
    hide Good;
    hide Granted;
    hide After;
    hide AfterAll;
    hide Willing;
    hide DataPacket;
    hide KexInitMsg;
    hide HC.DhInit;
    var m := ToTheEnd(env, data, cookie, secret);
    var k1 := FirstMove(env, k, data);
    PacketGrantsNothing(env, k, DataPacket(data));
    var k2 := SecondMove(env, k1, cookie);
    PacketGrantsNothing(env, k1, KexInitMsg(cookie));
    var k3 := ThirdMove(env, k2);
    UnpaidReadGrantsNothing(env, k2);
    var k4 := FourthMove(env, k3, secret);
    PacketGrantsNothing(env, k3, HC.DhInit(env, secret));
    var k5 := FifthMove(env, k4);
    PacketGrantsNothing(env, k4, [MSG_NEWKEYS]);
    assert m == [m[0]] + ([m[1]] + ([m[2]] + ([m[3]] + ([m[4]] + []))));
    Moves(env, k, m[0], [m[1]] + ([m[2]] + ([m[3]] + ([m[4]] + []))));
    Moves(env, k1, m[1], [m[2]] + ([m[3]] + ([m[4]] + [])));
    Moves(env, k2, m[2], [m[3]] + ([m[4]] + []));
    Moves(env, k3, m[3], [m[4]] + []);
    Moves(env, k4, m[4], []);
    NoMoves(env, k5);
  }

  lemma Idle(env: Env, k: Core)
    requires Good(env, k) && AtEase(k)
    ensures !k.kexInitSent
  {
    hide TraceOf;
    hide SeenOf;
    hide SvcInv;
    hide OutOk;
  }

  /** The dead end is never far: from any ordinary moment of any run with a client within its window, five moves lead to
      it. The exchange is over and packets may be sent, there is nothing to read, the client's window is 0, and as long as
      the connection lasts and whatever is done within that window, it stays 0: SshRead never pays. */
  lemma DeadEnd(env: Env, events: seq<Event>, data: seq<byte>, cookie: seq<byte>, secret: Bytes32, later: seq<Move>)
    requires Willing(env) && RespectsWindow(env, events) && AtEase(Run(env, events).core) && |cookie| == 16
    requires data != [] && Run(env, events).core.consumed + |data| == LOCAL_WINDOW
    ensures var k5 := AfterAll(env, Run(env, events).core, ToTheEnd(env, data, cookie, secret));
      && AtEase(k5) && CanSendNow(k5) && Stuck(k5)
      && (InWindow(env, k5, later) ==>
            var k := AfterAll(env, k5, later);
            k.state.StClosed? || Stuck(k))
  {
    hide Run;
    hide Good;
    hide Willing;
    hide RespectsWindow;
    hide ToTheEnd;
    hide AfterAll;
    hide InWindow;
    hide TraceOf;
    var k := Run(env, events).core;
    RunOk(env, events);
    Idle(env, k);
    LosslessDelivery(env, events);
    Arrives(env, k, data, cookie, secret);
    NothingGranted(env, k, data, cookie, secret);
    var k5 := AfterAll(env, k, ToTheEnd(env, data, cookie, secret));
    if InWindow(env, k5, later) {
      StuckStays(env, k5, later);
    }
  }
}
