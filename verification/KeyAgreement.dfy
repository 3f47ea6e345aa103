/** Key agreement in a joint run with an honest client (RFC 4253 sections 7.2 and 8, RFC 8731 section 3). The client
    computes everything from what it sent and what came over the wire; the theorem says the two sides agree. */
module KeyAgreement {
  import opened Bytes
  import opened Wire
  import opened Algorithms
  import opened Environment
  import opened KeySchedule
  import opened HonestClient
  import opened Session
  import opened SessionFrames
  import opened ServiceInvariants
  import K = KexInvariants
  import opened Connection
  import opened Runs

  /** X25519 is commutative. */
  ghost predicate Commutes(env: Env) {
    forall a: Bytes32, b: Bytes32 :: DhShared(env, a, DhPublic(env, b)) == DhShared(env, b, DhPublic(env, a))
  }

  // ---- joint steps ----

  /** The server and the client, each by its own records. */
  datatype Joint = Joint(k: Core, cl: Client)

  datatype Act =
    | SendsKexInit(payload: seq<byte>)
    | SendsDh(secret: Bytes32)
    | SendsNewKeys
    | SendsOther(payload: seq<byte>)
    | ServerDoes(e: Event)

  predicate Proper(a: Act) {
    match a
    case SendsKexInit(p) => Is(p, 20)
    case SendsOther(p) => p == [] || (p[0] != 20 && p[0] != 30 && p[0] != 21)
    case ServerDoes(e) => !e.Input?
    case _ => true
  }

  /** The session after anything but input: a read, a write, a close, a time-out, the version line, the loss of the
      transport. */
  function CallOn(env: Env, k: Core, e: Event): Core {
    Apply(env, Conn(k, [], false, 0), e).core
  }

  /** The reply the server put on the wire since it was at k, if that is the first thing it sent. */
  function ReplySince(k: Core, k': Core): seq<byte> {
    if |k'.hist.sent| > |k.hist.sent| then k'.hist.sent[|k.hist.sent|].payload else []
  }

  /** One step; None once the client gives up. A closed connection takes no more of them. */
  function Step(env: Env, j: Joint, a: Act): Option<Joint> {
    if j.k.state.StClosed? then Some(j) else
    match a
    case SendsKexInit(p) =>
      var k := Deliver(env, j.k, p).k;
      Some(Joint(k, j.cl.(kexInit := p, serverKexInit := TraceOf(k.hist.sent).lastInit)))
    case SendsDh(secret) =>
      var k := Deliver(env, j.k, DhInit(env, secret)).k;
      if !Is(ReplySince(j.k, k), 31) then Some(Joint(k, j.cl))
      else
        var cl := Finish(env, j.cl, secret, ReplySince(j.k, k));
        if cl.None? then None else Some(Joint(k, cl.value))
    case SendsNewKeys => Some(Joint(Deliver(env, j.k, [21]).k, j.cl))
    case SendsOther(p) => Some(Joint(Deliver(env, j.k, p).k, j.cl))
    case ServerDoes(e) => Some(Joint(CallOn(env, j.k, e), j.cl))
  }

  function Play(env: Env, j: Joint, acts: seq<Act>): Option<Joint>
    decreases |acts|
  {
    if acts == [] then Some(j)
    else
      var n := Step(env, j, acts[0]);
      if n.None? then None else Play(env, n.value, acts[1..])
  }

  /** Agreement: the same hashes (so the same session id), the server seals with what the client opens with, and the
      server opens with, or holds ready, what the client seals with. */
  ghost predicate Agree(j: Joint) {
    && j.cl.hashes == j.k.hist.hashes
    && (j.k.hist.hashes != [] ==>
          && j.k.sid == Some(j.cl.hashes[0])
          && j.k.outDir.keys == j.cl.recv
          && (if j.k.kex.KxWaitNewKeys? then j.k.pend else j.k.inDir.keys) == j.cl.send)
  }

  ghost predicate JointOk(env: Env, j: Joint) {
    && Good(env, j.k) && !j.k.state.StVersion?
    && (!j.k.state.StClosed? ==>
          && Agree(j) && j.cl.version == j.k.version
          && (j.k.kex.KxWaitDh? ==> j.cl.kexInit == j.k.clientKexInit && j.cl.serverKexInit == j.k.serverKexInit))
  }

  // ---- what does not touch the exchange ----

  predicate SameExchange(k: Core, k': Core) {
    && k'.kex == k.kex && k'.version == k.version && k'.sid == k.sid && k'.pend == k.pend
    && k'.clientKexInit == k.clientKexInit && k'.serverKexInit == k.serverKexInit
    && k'.inDir.keys == k.inDir.keys && k'.outDir.keys == k.outDir.keys && k'.hist.hashes == k.hist.hashes
  }

  lemma SameExchangeKeeps(env: Env, j: Joint, k: Core)
    requires JointOk(env, j) && Good(env, k) && Onward(j.k, k) && !j.k.state.StClosed?
    requires k.state.StClosed? || SameExchange(j.k, k)
    ensures JointOk(env, Joint(k, j.cl))
  {
    hide Good;
  }

  lemma OtherTransport(env: Env, k: Core, p: seq<byte>)
    requires !k.state.StClosed? && p != [] && p[0] != MSG_KEXINIT && p[0] != MSG_KEXDH_INIT && p[0] != MSG_NEWKEYS
    ensures var r := HandleTransport(env, k, p);
      r.k.state.StClosed? || SameExchange(k, r.k)
  {
    hide Quiet;
    hide OnServiceRequest;
    hide SendPacket;
    hide OnKexInit;
    hide OnKexDhInit;
    hide OnNewKeys;
    ServiceRequestStep(env, k, p);
    QuietSame(env, k, OnServiceRequest(env, k, p).k);
    QuietSend(env, k, [MSG_UNIMPLEMENTED] + PutU32(Low32(k.inDir.seqNo - 1)));
    QuietSame(env, k, OnOther(env, k).k);
  }

  lemma QuietSame(env: Env, k: Core, k': Core)
    requires Quiet(env, k, k')
    ensures SameExchange(k, k')
  {
    hide TraceOf;
    hide OutOk;
    hide SessFrame;
  }

  lemma OtherPacket(env: Env, k: Core, p: seq<byte>)
    requires Good(env, k) && !k.state.StClosed? && !k.state.StVersion?
    requires p != [] && p[0] != MSG_KEXINIT && p[0] != MSG_KEXDH_INIT && p[0] != MSG_NEWKEYS
    ensures var r := Deliver(env, k, p);
      r.k.state.StClosed? || SameExchange(k, r.k)
  {
    hide HandleTransport;
    hide HandleService;
    hide SvcInv;
    hide K.KexInv;
    hide OutOk;
    hide TraceOf;
    hide SeenOf;
    var k1 := k.(hist := k.hist.(handled := k.hist.handled + [p]));
    LogKeeps(env, k, SeenOf(k.hist.handled), k.hist.handled + [p]);
    OtherTransport(env, k1, p);
    HandleServiceOk(env, k1, p);
  }

  lemma CallKeepsExchange(env: Env, k: Core, e: Event)
    requires Good(env, k) && !k.state.StClosed? && !e.Input?
    ensures var k' := CallOn(env, k, e);
      Good(env, k') && Onward(k, k') && (k'.state.StClosed? || SameExchange(k, k'))
  {
    hide Good;
    hide Onward;
    hide Apply;
    ApplyOk(env, Conn(k, [], false, 0), e);
    CallFrame(env, Conn(k, [], false, 0), e);
  }

  // ---- the exchange itself ----

  /** A KEXDH_REPLY is byte 31 and three strings: host key blob, public value and signature blob (RFC 4253 section 8, RFC
      8709 sections 4 and 6), and a reader of three strings gets exactly those. */
  lemma ReplyParses(env: Env, qs: seq<byte>, h: seq<byte>)
    requires |qs| == 32
    ensures var (p, hostKey, signature) := (KexReply(env, qs, h),
                                            Encoded([IStr(KEY_TYPE), IStr(env.hostPub)]), Encoded([IStr(KEY_TYPE), IStr(env.sign(h))]));
      && p != [] && p[0] == 31
      && RAll(RInit(p[1..]), [NAME, NAME, NAME])
           == ([IStr(hostKey), IStr(qs), IStr(signature)], Cursor(p[1..], |p| - 1, false))
  {
    hide Encoded;
    hide Str;
    hide RAll;
    BlobIs(env);
    EncodedTwo(IStr(KEY_TYPE), IStr(env.sign(h)));
    var signature := Encoded([IStr(KEY_TYPE), IStr(env.sign(h))]);
    var items := [IStr(HostKeyBlob(env)), IStr(qs), IStr(signature)];
    ReplySize(env, qs, env.sign(h));
    EncodedThree(IStr(HostKeyBlob(env)), IStr(qs), IStr(signature));
    Regrouped(MSG_KEXDH_REPLY, Str(HostKeyBlob(env)), Str(qs), Str(signature));
    MessageReads(items, [NAME, NAME, NAME]);
  }

  lemma Regrouped(x: byte, a: seq<byte>, b: seq<byte>, c: seq<byte>)
    ensures ([x] + a + b + c)[1..] == a + b + c
  {
  }

  lemma ReplySize(env: Env, qs: seq<byte>, signature: Bytes64)
    requires |qs| == 32
    ensures SizeOf([IStr(HostKeyBlob(env)), IStr(qs), IStr(Encoded([IStr(KEY_TYPE), IStr(signature)]))]) < 1000
  {
    EncodedTwo(IStr(KEY_TYPE), IStr(signature));
    BlobSmall(env);
    hide HostKeyBlob;
    hide Encoded;
    SizeOfThree(IStr(HostKeyBlob(env)), IStr(qs), IStr(Encoded([IStr(KEY_TYPE), IStr(signature)])));
  }

  lemma BlobSmall(env: Env)
    ensures |HostKeyBlob(env)| == 51
  {
  }

  lemma DhInitParses(env: Env, secret: Bytes32)
    ensures Is(DhInit(env, secret), MSG_KEXDH_INIT)
    ensures RStr(RInit(DhInit(env, secret)[1..])).0 == DhPublic(env, secret)
    ensures !RStr(RInit(DhInit(env, secret)[1..])).1.err
  {
    hide RStr;
    var q := DhPublic(env, secret);
    EncodedOne(IStr(q));
    assert DhInit(env, secret)[1..] == [] + (PutU32(|q|) + q) + [];
    ReadStrBack([], q, []);
  }

  /** What the two sides do with one shared secret. */
  ghost predicate SameExchangeInputs(env: Env, k: Core, cl: Client) {
    && K.Agreed(k.clientKexInit, k.next) && K.OursIn(k.serverKexInit)
    && cl.version == k.version && cl.kexInit == k.clientKexInit && cl.serverKexInit == k.serverKexInit
    && cl.hashes == k.hist.hashes && (k.sid.Some? <==> k.hist.hashes != []) && (k.sid.Some? ==> k.sid.value == k.hist.hashes[0])
  }

  /** The lists of both sides lead both sides to the same algorithms. */
  lemma SuitesAre(k: Core, cl: Client)
    requires K.Agreed(k.clientKexInit, k.next) && K.OursIn(k.serverKexInit)
    requires cl.kexInit == k.clientKexInit && cl.serverKexInit == k.serverKexInit
    ensures NameLists(cl.kexInit).Some? && NameLists(cl.serverKexInit).Some?
    ensures var (mine, theirs) := (NameLists(cl.kexInit).value, NameLists(cl.serverKexInit).value);
      && Suite(mine, theirs, 2, 4) == Some((k.next.encIn as nat, k.next.macIn))
      && Suite(mine, theirs, 3, 5) == Some((k.next.encOut as nat, k.next.macOut))
  {
    hide NameLists;
    hide ParseKex;
    hide K.Choice;
    hide K.Offers;
    hide Split;
    hide FirstCommon;
    hide CipherKey;
    hide MacHash;
    hide Join;
    ListsAre(cl.kexInit);
    ListsAre(cl.serverKexInit);
    K.ChoiceByName(ParseKex(cl.kexInit[17..]).value);
    OurNamesAreGood();
    SplitJoin(ENC_NAMES);
    SplitJoin(MAC_NAMES);
    OffersAll(ParseKex(cl.kexInit[17..]).value);
  }

  lemma OffersAll(l: KexLists)
    requires K.Offers(l)
    ensures K.Chosen(l.encCs, K.CIPHERS).Some? && K.Chosen(l.encSc, K.CIPHERS).Some?
    ensures K.Chosen(l.macCs, K.MACS).Some? && K.Chosen(l.macSc, K.MACS).Some?
  {
    hide K.Chosen;
  }

  /** The client finishes, and its hash and both key sets are the server's. */
  lemma ClientFinishes(env: Env, k: Core, cl: Client, secret: Bytes32, priv: Bytes32, shared: Bytes32)
    requires Commutes(env) && SameExchangeInputs(env, k, cl)
    requires DhShared(env, priv, DhPublic(env, secret)) == Some(shared)
    ensures var (qc, qs) := (DhPublic(env, secret), DhPublic(env, priv));
      var h := HashFor(env, k, qc, qs, shared);
      var sid := if k.sid.Some? then k.sid.value else h;
      Finish(env, cl, secret, KexReply(env, qs, h)) == Some(cl.(
        hashes := k.hist.hashes + [h],
        send := CutKeys(env, MpintOf(shared), h, sid, C2S, k.next.encIn, k.next.macIn),
        recv := CutKeys(env, MpintOf(shared), h, sid, S2C, k.next.encOut, k.next.macOut)))
  {
    hide NameLists;
    hide KexReply;
    hide CutKeys;
    hide ClientKeys;
    hide MpintOf;
    hide ExchangeHash;
    hide ClientHash;
    hide HostKeyBlob;
    hide Suite;
    hide Encoded;
    hide K.Agreed;
    hide K.OursIn;
    hide RAll;
    var (qc, qs) := (DhPublic(env, secret), DhPublic(env, priv));
    var h := HashFor(env, k, qc, qs, shared);
    var sid := if k.sid.Some? then k.sid.value else h;
    assert DhShared(env, secret, qs) == Some(shared);
    ReplyParses(env, qs, h);
    BlobIs(env);
    HashIs(env, cl, HostKeyBlob(env), qc, qs, shared);
    SuitesAre(k, cl);
    KeysAre(env, shared, h, sid, k.next.encIn, k.next.macIn);
    KeysAre(env, shared, h, sid, k.next.encOut, k.next.macOut);
  }

  /** What FinishKex leaves behind. */
  lemma ServerFinishes(env: Env, k: Core, qc: seq<byte>, qs: seq<byte>, shared: seq<byte>)
    requires !k.state.StClosed? && |qs| == 32
    ensures var r := FinishKex(env, k, qc, qs, shared);
      var h := HashFor(env, k, qc, qs, shared);
      var sid := if k.sid.Some? then k.sid.value else h;
      && ReplySince(k, r.k) == KexReply(env, qs, h)
      && (r.ok ==>
            && r.k.sid == Some(sid) && r.k.hist.hashes == k.hist.hashes + [h] && r.k.kex.KxWaitNewKeys?
            && r.k.version == k.version
            && r.k.outDir.keys == CutKeys(env, MpintOf(shared), h, sid, S2C, k.next.encOut, k.next.macOut)
            && r.k.pend == CutKeys(env, MpintOf(shared), h, sid, C2S, k.next.encIn, k.next.macIn))
  {
    hide SendPacket;
    hide TraceOf;
    hide CutKeys;
    hide HashFor;
    hide MpintOf;
    hide HostKeyBlob;
    var h := HashFor(env, k, qc, qs, shared);
    var sid := if k.sid.Some? then k.sid.value else h;
    var k1 := k.(sid := Some(sid), hist := k.hist.(hashes := k.hist.hashes + [h]));
    BlobSmall(env);
    Send(env, k1, KexReply(env, qs, h));
    var r1 := SendPacket(env, k1, KexReply(env, qs, h));
    if r1.ok {
      Send(env, r1.k, [MSG_NEWKEYS]);
      var r2 := SendPacket(env, r1.k, [MSG_NEWKEYS]);
      assert r2.k.hist.sent[|k.hist.sent|] == r2.k.hist.sent[..|r1.k.hist.sent|][|k.hist.sent|];
    }
  }

  lemma FailIsNoReply(env: Env, k: Core, reason: uint32, msg: string)
    requires !k.state.StClosed? && |msg| <= 1000
    ensures var r := Fail(env, k, reason, msg);
      r.k.state.StClosed? && !Is(ReplySince(k, r.k), MSG_KEXDH_REPLY)
  {
    hide SendPacket;
    hide TraceOf;
    Send(env, k, DisconnectMsg(reason, msg));
  }

  ghost predicate SameLog(k: Core, k1: Core) {
    k1 == k.(drawn := k1.drawn, hist := k.hist.(handled := k1.hist.handled))
  }

  /** The server's side of a KEXDH_INIT: it fails without a reply, or it finishes. */
  lemma DhAnswer(env: Env, k: Core, secret: Bytes32)
    requires !k.state.StClosed?
    ensures var r := OnKexDhInit(env, k, DhInit(env, secret));
      var priv := Random(env, k.drawn, 32);
      var s := DhShared(env, priv, DhPublic(env, secret));
      if k.kex.KxWaitDh? && s.Some? then
        r == FinishKex(env, k.(drawn := k.drawn + 32), DhPublic(env, secret), DhPublic(env, priv), s.value)
      else r.k.state.StClosed? && !Is(ReplySince(k, r.k), MSG_KEXDH_REPLY)
  {
    hide RStr;
    hide FinishKex;
    hide Fail;
    DhInitParses(env, secret);
    FailIsNoReply(env, k, DISC_PROTOCOL_ERROR, "unexpected KEXDH_INIT");
    FailIsNoReply(env, k.(drawn := k.drawn + 32), DISC_KEY_EXCHANGE_FAILED, "curve25519 failure");
  }

  /** Deliver of a KEXDH_INIT when nothing of a wrong guess is to be dropped. */
  lemma DhDelivered(env: Env, k: Core, secret: Bytes32)
    requires !k.state.StVersion? && !k.ignoreNext
    ensures Deliver(env, k, DhInit(env, secret))
      == OnKexDhInit(env, k.(hist := k.hist.(handled := k.hist.handled + [DhInit(env, secret)])), DhInit(env, secret))
  {
    hide OnKexDhInit;
    hide OnKexInit;
    hide OnNewKeys;
    hide OnServiceRequest;
    hide OnOther;
    hide Fail;
    hide HandleService;
  }

  lemma DhDropped(env: Env, k: Core, secret: Bytes32)
    requires k.ignoreNext
    ensures var r := Deliver(env, k, DhInit(env, secret));
      SameExchange(k, r.k) && r.k.hist.sent == k.hist.sent && r.k.state == k.state
  {
    hide HandleTransport;
    hide HandleService;
    hide Fail;
  }

  lemma Inputs(env: Env, j: Joint)
    requires JointOk(env, j) && !j.k.state.StClosed? && j.k.kex.KxWaitDh?
    ensures SameExchangeInputs(env, j.k, j.cl)
  {
    hide TraceOf;
    hide SeenOf;
    hide K.Agreed;
    hide K.OursIn;
    hide SvcInv;
    hide OutOk;
  }

  lemma SendsDhOk(env: Env, j: Joint, secret: Bytes32)
    requires Commutes(env) && JointOk(env, j) && !j.k.state.StClosed?
    ensures var n := Step(env, j, SendsDh(secret));
      n.Some? && JointOk(env, n.value)
  {
    hide Good;
    hide Deliver;
    hide Finish;
    hide OnKexDhInit;
    hide SameExchangeInputs;
    hide FinishKex;
    hide KexReply;
    hide HashFor;
    hide CutKeys;
    hide MpintOf;
    var p := DhInit(env, secret);
    DeliverOk(env, j.k, p);
    if j.k.ignoreNext {
      DhDropped(env, j.k, secret);
      SameExchangeKeeps(env, j, Deliver(env, j.k, p).k);
    } else {
      DhDelivered(env, j.k, secret);
      var k1 := j.k.(hist := j.k.hist.(handled := j.k.hist.handled + [p]));
      DhAnswer(env, k1, secret);
      var priv := Random(env, k1.drawn, 32);
      var s := DhShared(env, priv, DhPublic(env, secret));
      if k1.kex.KxWaitDh? && s.Some? {
        DhFinishes(env, j, k1.(drawn := k1.drawn + 32), secret, priv, s.value);
      }
    }
  }

  lemma DhFinishes(env: Env, j: Joint, k: Core, secret: Bytes32, priv: Bytes32, shared: Bytes32)
    requires Commutes(env) && JointOk(env, j) && !j.k.state.StClosed? && j.k.kex.KxWaitDh? && SameLog(j.k, k)
    requires DhShared(env, priv, DhPublic(env, secret)) == Some(shared)
    requires var r := FinishKex(env, k, DhPublic(env, secret), DhPublic(env, priv), shared);
      Good(env, r.k) && Onward(j.k, r.k) && (!r.ok ==> r.k.state.StClosed?)
    ensures var r := FinishKex(env, k, DhPublic(env, secret), DhPublic(env, priv), shared);
      && Is(ReplySince(j.k, r.k), MSG_KEXDH_REPLY)
      && var cl := Finish(env, j.cl, secret, ReplySince(j.k, r.k));
         cl.Some? && JointOk(env, Joint(r.k, cl.value))
  {
    hide Good;
    hide Finish;
    hide FinishKex;
    hide KexReply;
    hide HashFor;
    hide CutKeys;
    hide MpintOf;
    hide K.Agreed;
    hide K.OursIn;
    var (qc, qs) := (DhPublic(env, secret), DhPublic(env, priv));
    Inputs(env, j);
    assert SameExchangeInputs(env, k, j.cl);
    ClientFinishes(env, k, j.cl, secret, priv, shared);
    ServerFinishes(env, k, qc, qs, shared);
    ReplyParses(env, qs, HashFor(env, k, qc, qs, shared));
  }

  lemma KexInitLeaves(env: Env, k: Core, p: seq<byte>)
    requires Good(env, k) && !k.state.StClosed? && !k.state.StVersion? && Is(p, MSG_KEXINIT)
    ensures var r := Deliver(env, k, p);
      r.k.state.StClosed? ||
        (&& (k.kex.KxIdle? || k.kex.KxWaitKexInit?) && r.k.kex.KxWaitDh?
         && r.k.clientKexInit == p && r.k.serverKexInit == TraceOf(r.k.hist.sent).lastInit
         && SameExchange(k.(kex := r.k.kex, clientKexInit := r.k.clientKexInit, serverKexInit := r.k.serverKexInit), r.k))
  {
    hide SvcInv;
    hide OutOk;
    hide OnKexInit;
    hide TraceOf;
    hide SeenOf;
    hide K.Agreed;
    hide K.OursIn;
    hide K.KexInv;
    var k1 := k.(hist := k.hist.(handled := k.hist.handled + [p]));
    LogKeeps(env, k, SeenOf(k.hist.handled), k.hist.handled + [p]);
    assert Deliver(env, k, p) == OnKexInit(env, k1, p);
    KexInitMoves(env, k1, SeenOf(k.hist.handled), p);
    DeliverOk(env, k, p);
    SeenSnoc(k.hist.handled, p);
    if !Deliver(env, k, p).k.state.StClosed? {
      InitTracked(env, Deliver(env, k, p).k);
    }
  }

  lemma InitTracked(env: Env, k: Core)
    requires Good(env, k) && !k.state.StClosed?
    ensures k.serverKexInit == TraceOf(k.hist.sent).lastInit && k.clientKexInit == SeenOf(k.hist.handled).lastInit
  {
    hide TraceOf;
    hide SeenOf;
    hide K.Agreed;
    hide K.OursIn;
    hide SvcInv;
    hide OutOk;
  }

  lemma KexInitMoves(env: Env, k: Core, seen: Seen, p: seq<byte>)
    requires K.KexInv(k, seen) && !k.state.StClosed? && Is(p, MSG_KEXINIT)
    ensures var r := OnKexInit(env, k, p);
      r.k.state.StClosed? ||
        (&& (k.kex.KxIdle? || k.kex.KxWaitKexInit?) && r.k.kex.KxWaitDh?
         && SameExchange(k.(kex := r.k.kex, clientKexInit := r.k.clientKexInit, serverKexInit := r.k.serverKexInit), r.k))
  {
    hide SendKexInit;
    hide Negotiate;
    hide K.KexInv;
    hide TraceOf;
    hide K.OursIn;
    hide K.Agreed;
    hide Quiet;
    hide Disconnect;
    if k.kex.KxIdle? || k.kex.KxWaitKexInit? {
      K.InitsOutStep(env, k, seen, p);
      var r := K.InitsOut(env, k, p);
      if r.ok {
        K.NegotiateStep(env, r.k.(kexInitSent := false));
      }
    }
  }

  lemma SendsKexInitOk(env: Env, j: Joint, p: seq<byte>)
    requires JointOk(env, j) && !j.k.state.StClosed? && Is(p, MSG_KEXINIT)
    ensures var n := Step(env, j, SendsKexInit(p));
      n.Some? && JointOk(env, n.value)
  {
    hide Good;
    hide Deliver;
    hide TraceOf;
    DeliverOk(env, j.k, p);
    KexInitLeaves(env, j.k, p);
  }

  lemma SendsNewKeysOk(env: Env, j: Joint)
    requires JointOk(env, j) && !j.k.state.StClosed?
    ensures var n := Step(env, j, SendsNewKeys);
      n.Some? && JointOk(env, n.value)
  {
    hide Good;
    hide Fail;
    hide SendPacket;
    DeliverOk(env, j.k, [MSG_NEWKEYS]);
    var k1 := j.k.(hist := j.k.hist.(handled := j.k.hist.handled + [[MSG_NEWKEYS]]));
    FailIsNoReply(env, k1, DISC_PROTOCOL_ERROR, "unexpected NEWKEYS");
    assert Deliver(env, j.k, [MSG_NEWKEYS]) == OnNewKeys(env, k1);
  }

  lemma StepKeeps(env: Env, j: Joint, a: Act)
    requires Commutes(env) && JointOk(env, j) && Proper(a)
    ensures Step(env, j, a).Some? && JointOk(env, Step(env, j, a).value)
  {
    hide JointOk;
    hide Deliver;
    hide CallOn;
    hide Good;
    hide TraceOf;
    if !j.k.state.StClosed? {
      match a
      case SendsKexInit(p) => SendsKexInitOk(env, j, p);
      case SendsDh(secret) => SendsDhOk(env, j, secret);
      case SendsNewKeys => SendsNewKeysOk(env, j);
      case SendsOther(p) =>
        OkGood(env, j);
        DeliverOk(env, j.k, p);
        if p == [] {
          EmptyCloses(env, j.k);
        } else {
          OtherPacket(env, j.k, p);
        }
        SameExchangeKeeps(env, j, Deliver(env, j.k, p).k);
      case ServerDoes(e) =>
        OkGood(env, j);
        CallKeepsExchange(env, j.k, e);
        SameExchangeKeeps(env, j, CallOn(env, j.k, e));
    }
  }

  lemma EmptyCloses(env: Env, k: Core)
    ensures Deliver(env, k, []).k.state.StClosed?
  {
  }

  lemma OkGood(env: Env, j: Joint)
    requires JointOk(env, j)
    ensures Good(env, j.k) && !j.k.state.StVersion?
  {
  }

  lemma {:induction false} PlayKeeps(env: Env, j: Joint, acts: seq<Act>)
    requires Commutes(env) && JointOk(env, j) && forall a :: a in acts ==> Proper(a)
    ensures Play(env, j, acts).Some? && JointOk(env, Play(env, j, acts).value)
    decreases |acts|
  {
    hide JointOk;
    hide Step;
    if acts != [] {
      StepKeeps(env, j, acts[0]);
      PlayKeeps(env, Step(env, j, acts[0]).value, acts[1..]);
    }
  }

  /** A connection that has just taken the client's version line, and the client that sent it. */
  function Meet(env: Env, k: Core, line: seq<byte>): Joint {
    Joint(TakeVersion(env, k, line).k, Client(line, [], [], [], NO_KEYS, NO_KEYS))
  }

  lemma MeetOk(env: Env, k: Core, line: seq<byte>)
    requires Good(env, k) && k.state.StVersion?
    ensures JointOk(env, Meet(env, k, line))
  {
    hide Good;
    hide SendKexInit;
    hide TraceOf;
    TakeVersionOk(env, k, line);
    NoHashYet(env, k);
    var k1 := k.(version := line, state := StKex, kex := KxWaitKexInit);
    K.SendInit(env, k1);
  }

  lemma NoHashYet(env: Env, k: Core)
    requires Good(env, k) && k.state.StVersion?
    ensures k.hist.hashes == []
  {
    hide TraceOf;
    hide SeenOf;
    hide SvcInv;
    hide OutOk;
  }

  /** From the version exchange on, in the first and in every later exchange, whatever else either side sends or does
      in between: the client never gives up, and while the connection is open both sides have the same exchange hashes,
      the first of them is the session id of both, and each direction's keys are the same at both ends. */
  lemma KeysAgree(env: Env, before: seq<Event>, line: seq<byte>, acts: seq<Act>)
    requires Commutes(env) && Run(env, before).core.state.StVersion? && forall a :: a in acts ==> Proper(a)
    ensures var end := Play(env, Meet(env, Run(env, before).core, line), acts);
      end.Some? && (end.value.k.state.StClosed? || Agree(end.value))
  {
    hide Good;
    hide Meet;
    hide Play;
    hide Run;
    hide Agree;
    RunOk(env, before);
    MeetOk(env, Run(env, before).core, line);
    PlayKeeps(env, Meet(env, Run(env, before).core, line), acts);
  }
}
