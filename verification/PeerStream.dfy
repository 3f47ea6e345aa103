/** The receiving side of the record layer over whole runs of the connection: a peer whose keys match is heard exactly. */
module PeerStream {
  import opened Bytes
  import opened Wire
  import opened Algorithms
  import opened Environment
  import opened RecordLayer
  import opened KeySchedule
  import opened Session
  import opened SessionFrames
  import opened ServiceInvariants
  import K = KexInvariants
  import opened Connection
  import opened Runs

  // ---- only NEWKEYS touches the incoming direction ----

  lemma MacsKeepIn(env: Env, k: Core, l: KexLists)
    ensures NegotiateMacs(env, k, l).k.inDir == k.inDir
  {
    hide Disconnect;
    hide Pick;
    hide MacTypeOf;
  }

  lemma CiphersKeepIn(env: Env, k: Core, l: KexLists)
    ensures NegotiateCiphers(env, k, l).k.inDir == k.inDir
  {
    hide Disconnect;
    hide Pick;
    hide EncKeyLen;
    hide NegotiateMacs;
    var encIn, encOut := Pick(l.encCs, OUR_LISTS.encCs), Pick(l.encSc, OUR_LISTS.encSc);
    if encIn.Some? && encOut.Some? {
      MacsKeepIn(env, k.(next := k.next.(encIn := EncKeyLen(encIn.value)).(encOut := EncKeyLen(encOut.value))), l);
    }
  }

  lemma NegotiateKeepsIn(env: Env, k: Core)
    ensures Negotiate(env, k).k.inDir == k.inDir
  {
    hide Disconnect;
    hide Pick;
    hide ParseKex;
    hide WrongGuess;
    hide NegotiateCiphers;
    if |k.clientKexInit| >= 17 && ParseKex(k.clientKexInit[17..]).Some? {
      var l := ParseKex(k.clientKexInit[17..]).value;
      var kex := Pick(l.kex, OUR_LISTS.kex);
      if kex.Some? {
        CiphersKeepIn(env, k.(ignoreNext := WrongGuess(l, kex.value)), l);
      }
    }
  }

  lemma KexInitKeepsIn(env: Env, k: Core, p: seq<byte>)
    ensures OnKexInit(env, k, p).k.inDir == k.inDir
  {
    hide SendPacket;
    hide KexInitMsg;
    hide Disconnect;
    hide Negotiate;
    var k1 := k.(clientKexInit := p, hist := k.hist.(dropped := 0));
    var r := if k1.kexInitSent then Ret(k1, true) else SendKexInit(env, k1);
    NegotiateKeepsIn(env, r.k.(kexInitSent := false));
  }

  lemma KexDhKeepsIn(env: Env, k: Core, p: seq<byte>)
    requires p != []
    ensures OnKexDhInit(env, k, p).k.inDir == k.inDir
  {
    hide SendPacket;
    hide Disconnect;
    hide RStr;
    hide CutKeys;
    hide HashFor;
    hide KexReply;
  }

  lemma TransportKeepsIn(env: Env, k: Core, p: seq<byte>)
    requires p != []
    ensures var r := HandleTransport(env, k, p);
      if IsNewKeys(p) then r.ok ==> r.k.inDir == Install(k.inDir, k.pend) else r.k.inDir == k.inDir
  {
    hide OnKexInit;
    hide OnKexDhInit;
    hide SendPacket;
    hide Disconnect;
    hide PutU32;
    hide RStr;
    KexInitKeepsIn(env, k, p);
    KexDhKeepsIn(env, k, p);
  }

  lemma DeliverIn(env: Env, k: Core, p: seq<byte>)
    requires Good(env, k) && !k.state.StClosed? && !k.state.StVersion? && Deliver(env, k, p).ok
    ensures Deliver(env, k, p).k.inDir == if IsNewKeys(p) then Install(k.inDir, k.pend) else k.inDir
  {
    hide HandleTransport;
    hide HandleService;
    hide Disconnect;
    hide SvcInv;
    hide K.KexInv;
    hide OutOk;
    var k1 := k.(hist := k.hist.(handled := k.hist.handled + [p]));
    LogKeeps(env, k, SeenOf(k.hist.handled), k.hist.handled + [p]);
    if p != [] {
      TransportKeepsIn(env, k1, p);
      HandleServiceOk(env, k1, p);
    }
  }

  // ---- the peer ----

  /** The state after the server has been given payload p by a peer whose packet left it at d. */
  function Hear(env: Env, k: Core, d: Dir, p: seq<byte>): Ret {
    Deliver(env, k.(inDir := d), p)
  }

  /** The state after the server has been given all the payloads of a peer. */
  function HeardAll(env: Env, k: Core, msgs: seq<Msg>): Core
    decreases |msgs|
  {
    if msgs == [] then k
    else HeardAll(env, Hear(env, k, AfterSeal(k.inDir, msgs[0].payload, msgs[0].pad), msgs[0].payload).k, msgs[1..])
  }

  /** A peer that sends packets the server accepts and that takes, at each of its NEWKEYS, the keys the server holds
      for it. */
  ghost predicate Matches(env: Env, k: Core, d: Dir, msgs: seq<Msg>, keys: seq<Keys>)
    decreases |msgs|
  {
    msgs == [] ||
    (var m := msgs[0];
     var d1 := AfterSeal(d, m.payload, m.pad);
     var r := Hear(env, k, d1, m.payload);
     var (d2, keys2) := Switch(d1, m.payload, keys);
     && Sendable(d, m.payload, m.pad)
     && (IsNewKeys(m.payload) ==> keys != [] && keys[0] == k.pend)
     && r.ok && !r.k.state.StClosed?
     && Matches(env, r.k, d2, msgs[1..], keys2))
  }

  lemma HeardStep(env: Env, k: Core, m: Msg, rest: seq<byte>, keys: seq<Keys>, stale: uint32)
    requires Good(env, k) && !k.state.StClosed? && !k.state.StVersion?
    requires Sendable(k.inDir, m.payload, m.pad)
    requires IsNewKeys(m.payload) ==> keys != [] && keys[0] == k.pend
    requires Hear(env, k, AfterSeal(k.inDir, m.payload, m.pad), m.payload).ok
    requires !Hear(env, k, AfterSeal(k.inDir, m.payload, m.pad), m.payload).k.state.StClosed?
    ensures var r := Hear(env, k, AfterSeal(k.inDir, m.payload, m.pad), m.payload);
      var c := Conn(k, Seal(env, k.inDir, m.payload, m.pad) + rest, false, stale);
      && ConnOk(c)
      && TryOne(env, c) == (Conn(r.k, rest, false, 1 + |m.payload| + |m.pad|), 1)
      && Good(env, r.k) && !r.k.state.StVersion?
      && r.k.hist.handled == k.hist.handled + [m.payload]
      && r.k.inDir == Switch(AfterSeal(k.inDir, m.payload, m.pad), m.payload, keys).0
  {
    hide RxStep;
    hide Deliver;
    hide Good;
    hide Seal;
    OpenSealed(env, k.inDir, m.payload, m.pad, rest, stale);
    var d1 := AfterSeal(k.inDir, m.payload, m.pad);
    InDirKeeps(env, k, d1);
    DeliverOk(env, k.(inDir := d1), m.payload);
    DeliverIn(env, k.(inDir := d1), m.payload);
  }

  /** One packet off the front of the peer's stream. */
  lemma HeardOne(env: Env, k: Core, msgs: seq<Msg>, keys: seq<Keys>, stale: uint32)
    requires msgs != []
    requires Good(env, k) && !k.state.StClosed? && !k.state.StVersion? && Matches(env, k, k.inDir, msgs, keys)
    ensures var d1 := AfterSeal(k.inDir, msgs[0].payload, msgs[0].pad);
      var (d2, keys2) := Switch(d1, msgs[0].payload, keys);
      var r, s := Hear(env, k, d1, msgs[0].payload), SealAll(env, d2, msgs[1..], keys2);
      && SealAll(env, k.inDir, msgs, keys).dir == s.dir
      && Good(env, r.k) && !r.k.state.StClosed? && !r.k.state.StVersion? && r.k.inDir == d2
      && Matches(env, r.k, d2, msgs[1..], keys2)
      && r.k.hist.handled == k.hist.handled + [msgs[0].payload]
      && var (c, c1) := (Conn(k, SealAll(env, k.inDir, msgs, keys).bytes, false, stale),
                         Conn(r.k, s.bytes, false, 1 + |msgs[0].payload| + |msgs[0].pad|));
         ConnOk(c) && ConnOk(c1) && Drain(env, c) == Drain(env, c1)
  {
    hide TryOne;
    hide Good;
    hide Hear;
    hide Seal;
    hide AfterSeal;
    hide Sendable;
    hide Install;
    hide Drain;
    var m := msgs[0];
    var (d2, keys2) := Switch(AfterSeal(k.inDir, m.payload, m.pad), m.payload, keys);
    HeardStep(env, k, m, SealAll(env, d2, msgs[1..], keys2).bytes, keys, stale);
    DrainStep(env, Conn(k, SealAll(env, k.inDir, msgs, keys).bytes, false, stale));
  }

  lemma NothingHeard(env: Env, k: Core, keys: seq<Keys>, stale: uint32)
    requires !k.state.StClosed? && !k.state.StVersion?
    ensures SealAll(env, k.inDir, [], keys) == Sealed([], k.inDir, keys)
    ensures Drain(env, Conn(k, [], false, stale)) == Conn(k, [], false, stale)
  {
    hide TryOne;
    Quiescent(env, k, stale);
  }

  lemma LogGrows(log: seq<seq<byte>>, msgs: seq<Msg>)
    ensures msgs == [] ==> log + Payloads(msgs) == log
    ensures msgs != [] ==> log + Payloads(msgs) == (log + [msgs[0].payload]) + Payloads(msgs[1..])
  {
    if msgs == [] {
      assert log + [] == log;
    } else {
      Associates(log, [msgs[0].payload], Payloads(msgs[1..]));
    }
  }

  /** Whole runs of input: the server handles exactly the peer's payloads, in order, however they are padded and whatever
      key changes happen on the way, and ends at the peer's keystream position and sequence number with nothing left over. */
  lemma {:induction false} PeerIsHeard(env: Env, k: Core, msgs: seq<Msg>, keys: seq<Keys>, stale: uint32)
    requires Good(env, k) && !k.state.StClosed? && !k.state.StVersion? && Matches(env, k, k.inDir, msgs, keys)
    ensures var s := SealAll(env, k.inDir, msgs, keys);
      var c := Drain(env, Conn(k, s.bytes, false, stale));
      && c.core == HeardAll(env, k, msgs) && c.core.hist.handled == k.hist.handled + Payloads(msgs)
      && c.core.inDir == s.dir && c.buf == [] && !c.haveLen && !c.core.state.StClosed?
    decreases |msgs|
  {
    hide TryOne;
    hide Good;
    hide Hear;
    hide AfterSeal;
    hide Switch;
    hide Drain;
    hide SealAll;
    hide Matches;
    hide Payloads;
    if msgs == [] {
      NothingHeard(env, k, keys, stale);
      LogGrows(k.hist.handled, msgs);
    } else {
      var m := msgs[0];
      var d1 := AfterSeal(k.inDir, m.payload, m.pad);
      var (d2, keys2) := Switch(d1, m.payload, keys);
      var k1 := Hear(env, k, d1, m.payload).k;
      HeardOne(env, k, msgs, keys, stale);
      PeerIsHeard(env, k1, msgs[1..], keys2, 1 + |m.payload| + |m.pad|);
      LogGrows(k.hist.handled, msgs);
    }
  }

  lemma Quiescent(env: Env, k: Core, stale: uint32)
    requires !k.state.StClosed? && !k.state.StVersion?
    ensures TryOne(env, Conn(k, [], false, stale)) == (Conn(k, [], false, stale), 0)
  {
    hide RxStep;
    hide Deliver;
    hide Disconnect;
    EmptyBuffer(env, k.inDir, stale);
  }
}
