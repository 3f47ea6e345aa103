/** The key exchange: what every packet keeps of its phases, key epochs and packet counts. */
module KexInvariants {
  import opened Bytes
  import opened Wire
  import opened Algorithms
  import opened Environment
  import opened RecordLayer
  import opened KeySchedule
  import opened Session
  import opened SessionFrames
  import HC = HonestClient

  function One(b: bool): nat {
    if b then 1 else 0
  }

  /** What one client list set settles, when every list has a common algorithm. */
  function Choice(l: KexLists): Option<NextAlgs> {
    var (encIn, encOut) := (Pick(l.encCs, OUR_LISTS.encCs), Pick(l.encSc, OUR_LISTS.encSc));
    var (macIn, macOut) := (Pick(l.macCs, OUR_LISTS.macCs), Pick(l.macSc, OUR_LISTS.macSc));
    if Pick(l.kex, OUR_LISTS.kex).None? || Pick(l.hostKey, OUR_LISTS.hostKey).None?
       || encIn.None? || encOut.None? || macIn.None? || macOut.None?
       || Pick(l.compCs, OUR_LISTS.compCs).None? || Pick(l.compSc, OUR_LISTS.compSc).None? then None
    else Some(NextAlgs(EncKeyLen(encIn.value), EncKeyLen(encOut.value), MacTypeOf(macIn.value), MacTypeOf(macOut.value)))
  }

  predicate Agreed(clientKexInit: seq<byte>, next: NextAlgs) {
    |clientKexInit| >= 17 && ParseKex(clientKexInit[17..]).Some?
    && Choice(ParseKex(clientKexInit[17..]).value) == Some(next)
  }

  /** The client's KEXINIT parses, and every list of it has an algorithm the server has too. */
  predicate Negotiable(clientKexInit: seq<byte>) {
    |clientKexInit| >= 17 && ParseKex(clientKexInit[17..]).Some? && Choice(ParseKex(clientKexInit[17..]).value).Some?
  }

  predicate OursIn(serverKexInit: seq<byte>) {
    |serverKexInit| >= 17 && ParseKex(serverKexInit[17..]) == Some(OUR_LISTS)
  }

  /** The first name of a client's list that is one of these. */
  function Chosen(list: seq<byte>, names: seq<seq<byte>>): Option<seq<byte>> {
    FirstCommon(Split(list), names)
  }

  const KEXES := [Ascii("curve25519-sha256"), Ascii("curve25519-sha256@libssh.org")]
  const HOST_KEYS := [Ascii("ssh-ed25519")]
  const CIPHERS := [Ascii("aes128-ctr"), Ascii("aes256-ctr"), Ascii("aes192-ctr")]
  const MACS := [Ascii("hmac-sha2-256"), Ascii("hmac-sha2-512")]
  const COMPRESSIONS := [Ascii("none")]

  /** Every list of the client has one of the names. */
  predicate Offers(l: KexLists) {
    && Chosen(l.kex, KEXES).Some? && Chosen(l.hostKey, HOST_KEYS).Some?
    && Chosen(l.encCs, CIPHERS).Some? && Chosen(l.encSc, CIPHERS).Some?
    && Chosen(l.macCs, MACS).Some? && Chosen(l.macSc, MACS).Some?
    && Chosen(l.compCs, COMPRESSIONS).Some? && Chosen(l.compSc, COMPRESSIONS).Some?
  }

  /** Key lengths and MACs after the RFCs' tables, client to server in, server to client out. */
  predicate ByName(l: KexLists, next: NextAlgs) {
    && Offers(l)
    && HC.CipherKey(Chosen(l.encCs, CIPHERS).value) == Some(next.encIn)
    && HC.CipherKey(Chosen(l.encSc, CIPHERS).value) == Some(next.encOut)
    && HC.MacHash(Chosen(l.macCs, MACS).value) == Some(next.macIn)
    && HC.MacHash(Chosen(l.macSc, MACS).value) == Some(next.macOut)
  }

  lemma ChoiceByName(l: KexLists)
    ensures Choice(l).Some? <==> Offers(l)
    ensures Choice(l).Some? ==> ByName(l, Choice(l).value)
  {
    hide Pick;
    hide FirstCommon;
    hide Split;
    hide EncKeyLen;
    hide MacTypeOf;
    hide HC.CipherKey;
    hide HC.MacHash;
    OurNamesAreGood();
    HC.PickIs(l.kex, KEX_NAMES);
    HC.PickIs(l.hostKey, HOSTKEY_NAMES);
    HC.PickIs(l.encCs, ENC_NAMES);
    HC.PickIs(l.encSc, ENC_NAMES);
    HC.PickIs(l.macCs, MAC_NAMES);
    HC.PickIs(l.macSc, MAC_NAMES);
    HC.PickIs(l.compCs, COMP_NAMES);
    HC.PickIs(l.compSc, COMP_NAMES);
    if Offers(l) {
      var (c, s) := (Chosen(l.encCs, CIPHERS).value, Chosen(l.encSc, CIPHERS).value);
      var (d, t) := (Chosen(l.macCs, MACS).value, Chosen(l.macSc, MACS).value);
      HC.TablesAgree(c, d);
      HC.TablesAgree(s, t);
    }
  }

  /** The same with the numbers written out. */
  lemma LengthsByName(l: KexLists, next: NextAlgs)
    requires ByName(l, next)
    ensures Chosen(l.encCs, CIPHERS) == Some(Ascii("aes128-ctr")) ==> next.encIn == 16
    ensures Chosen(l.encCs, CIPHERS) == Some(Ascii("aes192-ctr")) ==> next.encIn == 24
    ensures Chosen(l.encCs, CIPHERS) == Some(Ascii("aes256-ctr")) ==> next.encIn == 32
    ensures Chosen(l.encSc, CIPHERS) == Some(Ascii("aes128-ctr")) ==> next.encOut == 16
    ensures Chosen(l.encSc, CIPHERS) == Some(Ascii("aes192-ctr")) ==> next.encOut == 24
    ensures Chosen(l.encSc, CIPHERS) == Some(Ascii("aes256-ctr")) ==> next.encOut == 32
    ensures Chosen(l.macCs, MACS) == Some(Ascii("hmac-sha2-256")) ==> MacLen(next.macIn) == 32 && next.macIn.Sha256?
    ensures Chosen(l.macCs, MACS) == Some(Ascii("hmac-sha2-512")) ==> MacLen(next.macIn) == 64 && next.macIn.Sha512?
    ensures Chosen(l.macSc, MACS) == Some(Ascii("hmac-sha2-256")) ==> MacLen(next.macOut) == 32 && next.macOut.Sha256?
    ensures Chosen(l.macSc, MACS) == Some(Ascii("hmac-sha2-512")) ==> MacLen(next.macOut) == 64 && next.macOut.Sha512?
  {
    hide FirstCommon;
    hide Split;
    LiteralLengths();
  }

  lemma LiteralLengths()
    ensures HC.CipherKey(Ascii("aes128-ctr")) == Some(16)
    ensures HC.CipherKey(Ascii("aes192-ctr")) == Some(24)
    ensures HC.CipherKey(Ascii("aes256-ctr")) == Some(32)
    ensures HC.MacHash(Ascii("hmac-sha2-256")) == Some(Sha256)
    ensures HC.MacHash(Ascii("hmac-sha2-512")) == Some(Sha512)
  {
    assert Ascii("aes128-ctr")[4] == 50 && Ascii("aes192-ctr")[4] == 57 && Ascii("aes256-ctr")[4] == 53;
    assert Ascii("hmac-sha2-256")[10] != Ascii("hmac-sha2-512")[10];
  }

  /** A guess is dropped when something follows and the first name of either list is not the one in use: section 7. */
  lemma GuessByName(l: KexLists, chosen: seq<byte>)
    ensures WrongGuess(l, chosen) <==>
      l.firstFollows != 0 && (Split(l.kex)[0] != chosen || Split(l.hostKey)[0] != Ascii("ssh-ed25519"))
  {
    HeadOfSplit(l.kex);
    HeadOfSplit(l.hostKey);
  }

  lemma HeadOfSplit(s: seq<byte>)
    ensures Split(s)[0] == FirstEntryOf(s)
  {
    assert s[..|s|] == s;
  }

  /** `seen` is the digest of the packets received so far. */
  predicate KexInv(k: Core, seen: Seen) {
    var t := TraceOf(k.hist.sent);
    && t.disciplined
    && k.hist.dropped <= 1
    && (k.sid.Some? <==> k.hist.hashes != []) && (k.sid.Some? ==> k.sid.value == k.hist.hashes[0])
    && |k.hist.outKeys| == k.outDir.epoch
    && k.inDir.active == (k.inDir.epoch > 0) && k.outDir.active == (k.outDir.epoch > 0)
    && (!k.state.StClosed? ==> OpenInv(k, seen, t))
  }

  predicate OpenInv(k: Core, seen: Seen, t: Trace) {
    && (k.kexInitSent <==> k.kex.KxWaitKexInit?)
    && (k.ignoreNext ==> k.kex.KxWaitDh? && k.hist.dropped == 0)
    && (k.state.StVersion? ==> k.kex.KxIdle? && k.inDir.epoch == 0)
    && (k.state.StKex? ==> !k.kex.KxIdle? && k.inDir.epoch == 0)
    && (k.state.StAuth? || k.state.StConn? ==> k.inDir.epoch > 0)
    && (k.kex.KxWaitKexInit? ==> k.state.StKex?)
    && k.outDir.epoch == k.inDir.epoch + One(k.kex.KxWaitNewKeys?)
    && |k.hist.hashes| == k.outDir.epoch
    && t.open == (k.kex.KxWaitKexInit? || k.kex.KxWaitDh?)
    && t.inits == seen.inits + One(k.kexInitSent)
    && t.inits == t.newKeys + One(t.open)
    && t.newKeys == k.outDir.epoch && seen.newKeys == k.inDir.epoch
    && k.serverKexInit == t.lastInit && k.clientKexInit == seen.lastInit
    && (t.open ==> OursIn(k.serverKexInit))
    && (k.kex.KxWaitDh? ==> Agreed(k.clientKexInit, k.next))
  }

  ghost predicate TransportOk(env: Env, k: Core, seen: Seen, r: Ret) {
    && SessFrame(k, r.k) && (OutOk(env, k) ==> OutOk(env, r.k))
    && KexInv(r.k, seen) && (!r.ok ==> r.k.state.StClosed?)
    && k.hist.hashes <= r.k.hist.hashes && r.k.version == k.version
  }

  lemma KexFrameKeeps(k: Core, k': Core, seen: Seen)
    requires KexInv(k, seen) && KexFrame(k, k')
    ensures KexInv(k', seen)
  {
    hide TraceOf;
    hide Agreed;
    hide OursIn;
  }

  lemma ClosedKeeps(k: Core, k': Core, seen: Seen, seen': Seen)
    requires KexInv(k, seen) && KexFrame(k, k') && k'.state.StClosed?
    ensures KexInv(k', seen')
  {
    hide TraceOf;
    hide Agreed;
    hide OursIn;
  }

  lemma FailOk(env: Env, k: Core, seen: Seen, seen': Seen, reason: uint32, msg: string)
    requires KexInv(k, seen) && !k.state.StClosed? && |msg| <= 1000
    ensures TransportOk(env, k, seen', Fail(env, k, reason, msg))
  {
    hide Fail;
    hide KexInv;
    hide OutOk;
    hide SessFrame;
    QuietFail(env, k, reason, msg);
    ClosedKeeps(k, Fail(env, k, reason, msg).k, seen, seen');
  }

  lemma SendOk(env: Env, k: Core, seen: Seen, payload: seq<byte>)
    requires KexInv(k, seen) && !k.state.StClosed? && Plainly(payload)
    ensures TransportOk(env, k, seen, SendPacket(env, k, payload))
  {
    hide SendPacket;
    hide KexInv;
    hide OutOk;
    hide TraceOf;
    hide Agreed;
    hide OursIn;
    QuietSend(env, k, payload);
    KexFrameKeeps(k, SendPacket(env, k, payload).k, seen);
  }

  lemma StayOk(env: Env, k: Core, seen: Seen)
    requires KexInv(k, seen)
    ensures TransportOk(env, k, seen, Ret(k, true))
  {
    hide TraceOf;
    hide Agreed;
    hide OursIn;
    hide KexInv;
    hide Chain;
    hide EpochsOk;
  }

  // ---- KEXINIT ----

  lemma OurListsSmall()
    ensures |OUR_LISTS.kex| == 46 && |OUR_LISTS.hostKey| == 11 && |OUR_LISTS.encCs| == 32 && |OUR_LISTS.encSc| == 32
    ensures |OUR_LISTS.macCs| == 27 && |OUR_LISTS.macSc| == 27 && |OUR_LISTS.compCs| == 4 && |OUR_LISTS.compSc| == 4
  {
    assert Join(KEX_NAMES[1..]) == KEX_NAMES[1];
    assert Join(ENC_NAMES[1..]) == ENC_NAMES[1] + [COMMA] + Join(ENC_NAMES[1..][1..]);
    assert Join(ENC_NAMES[1..][1..]) == ENC_NAMES[2];
    assert Join(MAC_NAMES[1..]) == MAC_NAMES[1];
  }

  lemma SizeFrom(i: seq<Item>, n: nat)
    requires n < |i|
    ensures SizeOf(i[n..]) == ItemSize(i[n]) + SizeOf(i[n + 1..])
  {
    assert i[n..][1..] == i[n + 1..];
  }

  lemma SizeOfSix(i: seq<Item>, n: nat)
    requires n + 6 <= |i|
    ensures SizeOf(i[n..]) == ItemSize(i[n]) + ItemSize(i[n + 1]) + ItemSize(i[n + 2]) + ItemSize(i[n + 3])
      + ItemSize(i[n + 4]) + ItemSize(i[n + 5]) + SizeOf(i[n + 6..])
  {
    hide SizeOf;
    hide ItemSize;
    SizeFrom(i, n);
    SizeFrom(i, n + 1);
    SizeFrom(i, n + 2);
    SizeFrom(i, n + 3);
    SizeFrom(i, n + 4);
    SizeFrom(i, n + 5);
  }

  lemma KexItemsSize(l: KexLists)
    ensures SizeOf(KexItems(l)) == 45 + |l.kex| + |l.hostKey| + |l.encCs| + |l.encSc| + |l.macCs| + |l.macSc| + |l.compCs| + |l.compSc|
  {
    hide SizeOf;
    var i := KexItems(l);
    SizeOfSix(i, 0);
    SizeOfSix(i, 6);
    NoSize();
    assert i[0..] == i && i[12..] == [];
  }

  lemma NoSize()
    ensures SizeOf([]) == 0
  {
  }

  /** The server's KEXINIT always fits its buffer, and a client that parses it gets the server's lists back. */
  lemma OurKexInit(cookie: seq<byte>)
    requires |cookie| == 16
    ensures !KexBody(OUR_LISTS, PL_BUF - 17).err && |KexInitMsg(cookie)| <= 400
    ensures Is(KexInitMsg(cookie), MSG_KEXINIT)
    ensures KexInitMsg(cookie)[17..] == KexBody(OUR_LISTS, PL_BUF - 17).data
    ensures OursIn(KexInitMsg(cookie))
  {
    hide ParseKex;
    OurListsSmall();
    KexItemsSize(OUR_LISTS);
    WAllSize(WState([], PL_BUF - 17, false), KexItems(OUR_LISTS));
    KexRoundTrip(OUR_LISTS, PL_BUF - 17);
  }

  /** What the server offers, in the order of RFC 4253 section 7.1: no languages, no guess, a reserved zero. */
  function OurOffer(): seq<Item> {
    [IStr(Join(KEXES)), IStr(Join(HOST_KEYS)), IStr(Join(CIPHERS)), IStr(Join(CIPHERS)), IStr(Join(MACS)), IStr(Join(MACS)),
     IStr(Join(COMPRESSIONS)), IStr(Join(COMPRESSIONS)), IStr([]), IStr([]), IByte(0), IU32(0)]
  }

  /** The server's KEXINIT: byte 20, the cookie, the offer, nothing else. */
  lemma OfferIs(cookie: seq<byte>)
    requires |cookie| == 16
    ensures KexInitMsg(cookie) == [20] + cookie + Encoded(OurOffer())
  {
    hide Join;
    hide WAll;
    hide Encoded;
    hide ParseKex;
    OurKexInit(cookie);
    var w := WState([], PL_BUF - 17, false);
    assert KexItems(OUR_LISTS) == OurOffer();
    WAllEncodes(w, OurOffer());
    assert [] + Encoded(OurOffer()) == Encoded(OurOffer());
  }

  lemma SendInit(env: Env, k: Core)
    requires !k.state.StClosed?
    ensures var r := SendKexInit(env, k);
      && Is(r.k.serverKexInit, MSG_KEXINIT) && OursIn(r.k.serverKexInit)
      && SentOne(k.(serverKexInit := r.k.serverKexInit, kexInitSent := true), r.k, r.k.serverKexInit)
      && r.k.state == (if r.ok then k.state else StClosed)
      && (OutOk(env, k) ==> OutOk(env, r.k))
  {
    hide SendPacket;
    hide KexInitMsg;
    hide Chain;
    hide EpochsOk;
    hide TraceOf;
    hide Agreed;
    hide OursIn;
    var payload := KexInitMsg(Random(env, k.drawn, 16));
    OurKexInit(Random(env, k.drawn, 16));
    var k1 := k.(drawn := k.drawn + 16, serverKexInit := payload, kexInitSent := true);
    Send(env, k1, payload);
    if OutOk(env, k) {
      assert OutOk(env, k1);
      SendOut(env, k1, payload);
    }
  }

  /** What Negotiate may have settled, in part or in whole. */
  predicate Settled(k: Core, k1: Core) {
    k1 == k.(ignoreNext := k1.ignoreNext, next := k1.next)
  }

  ghost predicate NegotiateOutcome(env: Env, k: Core, r: Ret) {
    if r.ok then Settled(k, r.k) && Agreed(k.clientKexInit, r.k.next)
    else exists k1 :: Settled(k, k1) && Quiet(env, k1, r.k) && r.k.state.StClosed?
  }

  lemma NegotiateFails(env: Env, k: Core, k1: Core, reason: uint32, msg: string)
    requires Settled(k, k1) && !k.state.StClosed? && |msg| <= 1000
    ensures NegotiateOutcome(env, k, Fail(env, k1, reason, msg))
  {
    hide Fail;
    hide Quiet;
    QuietFail(env, k1, reason, msg);
  }

  /** What is known of the client's lists before the MACs are looked at. */
  predicate CiphersSettled(k0: Core, k: Core, l: KexLists) {
    && Settled(k0, k)
    && |k0.clientKexInit| >= 17 && ParseKex(k0.clientKexInit[17..]) == Some(l)
    && Pick(l.kex, OUR_LISTS.kex).Some? && Pick(l.hostKey, OUR_LISTS.hostKey).Some?
    && Pick(l.encCs, OUR_LISTS.encCs).Some? && Pick(l.encSc, OUR_LISTS.encSc).Some?
    && k.next.encIn == EncKeyLen(Pick(l.encCs, OUR_LISTS.encCs).value)
    && k.next.encOut == EncKeyLen(Pick(l.encSc, OUR_LISTS.encSc).value)
  }

  lemma MacsStep(env: Env, k: Core, k0: Core, l: KexLists)
    requires CiphersSettled(k0, k, l) && !k.state.StClosed?
    ensures NegotiateOutcome(env, k0, NegotiateMacs(env, k, l))
  {
    hide Fail;
    hide Quiet;
    hide NegotiateOutcome;
    hide Pick;
    hide MacTypeOf;
    hide EncKeyLen;
    hide ParseKex;
    NegotiateFails(env, k0, k, DISC_KEY_EXCHANGE_FAILED, "no common MAC (need hmac-sha2-256)");
    var macIn := Pick(l.macCs, OUR_LISTS.macCs);
    if macIn.Some? {
      var k1 := k.(next := k.next.(macIn := MacTypeOf(macIn.value)));
      NegotiateFails(env, k0, k1, DISC_KEY_EXCHANGE_FAILED, "no common MAC (need hmac-sha2-256)");
      var macOut := Pick(l.macSc, OUR_LISTS.macSc);
      if macOut.Some? {
        var k2 := k1.(next := k1.next.(macOut := MacTypeOf(macOut.value)));
        NegotiateFails(env, k0, k2, DISC_KEY_EXCHANGE_FAILED, "compression not supported");
        if Pick(l.compCs, OUR_LISTS.compCs).Some? && Pick(l.compSc, OUR_LISTS.compSc).Some? {
          SettledOk(env, k0, k2);
        }
      }
    }
  }

  lemma SettledOk(env: Env, k0: Core, k: Core)
    requires Settled(k0, k) && Agreed(k0.clientKexInit, k.next)
    ensures NegotiateOutcome(env, k0, Ret(k, true))
  {
  }

  lemma CiphersStep(env: Env, k: Core, k0: Core, l: KexLists)
    requires Settled(k0, k) && !k.state.StClosed?
    requires |k0.clientKexInit| >= 17 && ParseKex(k0.clientKexInit[17..]) == Some(l)
    requires Pick(l.kex, OUR_LISTS.kex).Some? && Pick(l.hostKey, OUR_LISTS.hostKey).Some?
    ensures NegotiateOutcome(env, k0, NegotiateCiphers(env, k, l))
  {
    hide Fail;
    hide Quiet;
    hide NegotiateOutcome;
    hide Pick;
    hide EncKeyLen;
    hide NegotiateMacs;
    hide ParseKex;
    NegotiateFails(env, k0, k, DISC_KEY_EXCHANGE_FAILED, "no common cipher (need aes-ctr)");
    var encIn := Pick(l.encCs, OUR_LISTS.encCs);
    if encIn.Some? {
      var k1 := k.(next := k.next.(encIn := EncKeyLen(encIn.value)));
      NegotiateFails(env, k0, k1, DISC_KEY_EXCHANGE_FAILED, "no common cipher (need aes-ctr)");
      var encOut := Pick(l.encSc, OUR_LISTS.encSc);
      if encOut.Some? {
        MacsStep(env, k1.(next := k1.next.(encOut := EncKeyLen(encOut.value))), k0, l);
      }
    }
  }

  lemma ListsStep(env: Env, k: Core, l: KexLists)
    requires !k.state.StClosed?
    requires |k.clientKexInit| >= 17 && ParseKex(k.clientKexInit[17..]) == Some(l)
    ensures NegotiateOutcome(env, k, NegotiateLists(env, k, l))
  {
    hide Fail;
    hide Quiet;
    hide NegotiateOutcome;
    hide Pick;
    hide NegotiateCiphers;
    hide ParseKex;
    hide WrongGuess;
    NegotiateFails(env, k, k, DISC_KEY_EXCHANGE_FAILED, "no common kex algorithm (need curve25519-sha256)");
    var kex := Pick(l.kex, OUR_LISTS.kex);
    if kex.Some? {
      var k1 := k.(ignoreNext := WrongGuess(l, kex.value));
      NegotiateFails(env, k, k1, DISC_KEY_EXCHANGE_FAILED, "no common host key algorithm (need ssh-ed25519)");
      if Pick(l.hostKey, OUR_LISTS.hostKey).Some? {
        CiphersStep(env, k1, k, l);
      }
    }
  }

  /** Exactly when negotiation succeeds, and what it then makes of the client's guess. */
  lemma NegotiateSucceeds(env: Env, k: Core)
    ensures var r := Negotiate(env, k);
      && (r.ok <==> Negotiable(k.clientKexInit))
      && (r.ok ==> var l := ParseKex(k.clientKexInit[17..]).value;
           r.k.ignoreNext == WrongGuess(l, Pick(l.kex, OUR_LISTS.kex).value))
  {
    hide Disconnect;
    hide Pick;
    hide EncKeyLen;
    hide MacTypeOf;
    hide ParseKex;
    hide WrongGuess;
    hide NegotiateCiphers;
    hide Choice;
    if |k.clientKexInit| >= 17 && ParseKex(k.clientKexInit[17..]).Some? {
      var l := ParseKex(k.clientKexInit[17..]).value;
      ChoiceIs(l);
      if Pick(l.kex, OUR_LISTS.kex).Some? {
        CiphersSucceed(env, k.(ignoreNext := WrongGuess(l, Pick(l.kex, OUR_LISTS.kex).value)), l);
      }
    }
  }

  predicate RestCommon(l: KexLists) {
    && Pick(l.encCs, OUR_LISTS.encCs).Some? && Pick(l.encSc, OUR_LISTS.encSc).Some?
    && Pick(l.macCs, OUR_LISTS.macCs).Some? && Pick(l.macSc, OUR_LISTS.macSc).Some?
    && Pick(l.compCs, OUR_LISTS.compCs).Some? && Pick(l.compSc, OUR_LISTS.compSc).Some?
  }

  lemma ChoiceIs(l: KexLists)
    ensures Choice(l).Some? <==> Pick(l.kex, OUR_LISTS.kex).Some? && Pick(l.hostKey, OUR_LISTS.hostKey).Some? && RestCommon(l)
  {
    hide Pick;
    hide EncKeyLen;
    hide MacTypeOf;
  }

  lemma CiphersSucceed(env: Env, k: Core, l: KexLists)
    ensures NegotiateCiphers(env, k, l).ok <==> RestCommon(l)
    ensures NegotiateCiphers(env, k, l).ok ==> NegotiateCiphers(env, k, l).k.ignoreNext == k.ignoreNext
  {
    hide Disconnect;
    hide Pick;
    hide EncKeyLen;
    hide MacTypeOf;
  }

  /** Negotiate succeeds exactly on what can be negotiated: every list of the client has one of the names. It then has
      settled exactly the choices by name and whether the client's guess is to be dropped, and otherwise it has
      disconnected and nothing else. */
  lemma NegotiateStep(env: Env, k: Core)
    requires !k.state.StClosed?
    ensures NegotiateOutcome(env, k, Negotiate(env, k))
    ensures Negotiate(env, k).ok <==> Negotiable(k.clientKexInit)
    ensures Negotiable(k.clientKexInit) <==>
      |k.clientKexInit| >= 17 && ParseKex(k.clientKexInit[17..]).Some? && Offers(ParseKex(k.clientKexInit[17..]).value)
    ensures Negotiate(env, k).ok ==>
      var (l, r) := (ParseKex(k.clientKexInit[17..]).value, Negotiate(env, k).k);
      && ByName(l, r.next)
      && (r.ignoreNext <==> l.firstFollows != 0
                            && (Split(l.kex)[0] != Chosen(l.kex, KEXES).value || Split(l.hostKey)[0] != Ascii("ssh-ed25519")))
  {
    NegotiateSucceeds(env, k);
    hide Fail;
    hide NegotiateOutcome;
    hide Negotiate;
    hide Choice;
    hide Offers;
    hide ByName;
    hide Chosen;
    hide ParseKex;
    hide Pick;
    hide Split;
    hide WrongGuess;
    NegotiateEnds(env, k);
    if |k.clientKexInit| >= 17 && ParseKex(k.clientKexInit[17..]).Some? {
      var l := ParseKex(k.clientKexInit[17..]).value;
      ChoiceByName(l);
      if Negotiate(env, k).ok {
        OutcomeAgreed(env, k);
        OurNamesAreGood();
        KexByName(l);
        GuessByName(l, Pick(l.kex, OUR_LISTS.kex).value);
      }
    }
  }

  lemma KexByName(l: KexLists)
    ensures Pick(l.kex, OUR_LISTS.kex) == Chosen(l.kex, KEXES)
    ensures Offers(l) ==> Chosen(l.kex, KEXES).Some?
  {
    hide Pick;
    hide FirstCommon;
    hide Split;
    OurNamesAreGood();
    HC.PickIs(l.kex, KEX_NAMES);
  }

  lemma OutcomeAgreed(env: Env, k: Core)
    requires NegotiateOutcome(env, k, Negotiate(env, k)) && Negotiate(env, k).ok
    ensures |k.clientKexInit| >= 17 && ParseKex(k.clientKexInit[17..]).Some?
    ensures Choice(ParseKex(k.clientKexInit[17..]).value) == Some(Negotiate(env, k).k.next)
  {
    hide Negotiate;
    hide ParseKex;
    hide Choice;
  }

  lemma NegotiateEnds(env: Env, k: Core)
    requires !k.state.StClosed?
    ensures NegotiateOutcome(env, k, Negotiate(env, k))
  {
    hide Fail;
    hide NegotiateOutcome;
    hide NegotiateLists;
    hide ParseKex;
    NegotiateFails(env, k, k, DISC_PROTOCOL_ERROR, "short KEXINIT");
    NegotiateFails(env, k, k, DISC_PROTOCOL_ERROR, "bad KEXINIT");
    if |k.clientKexInit| >= 17 && ParseKex(k.clientKexInit[17..]).Some? {
      ListsStep(env, k, ParseKex(k.clientKexInit[17..]).value);
    }
  }

  // ---- the three key exchange messages ----

  /** The client's KEXINIT has been taken in and the server's is out. */
  predicate BothInits(k: Core, k': Core, seen: Seen, p: seq<byte>) {
    var t := TraceOf(k'.hist.sent);
    && SessFrame(k, k')
    && k' == k.(state := k'.state, drawn := k'.drawn, writes := k'.writes, clientKexInit := p,
                serverKexInit := k'.serverKexInit, kexInitSent := k'.kexInitSent,
                outDir := k.outDir.(pos := k'.outDir.pos, seqNo := k'.outDir.seqNo),
                hist := k.hist.(sent := k'.hist.sent, dropped := 0))
    && t.disciplined && t.open && t.inits == See(seen, p).inits && t.newKeys == k.outDir.epoch
    && k'.serverKexInit == t.lastInit && OursIn(k'.serverKexInit)
  }

  /** `InitsOut` is the first half of OnKexInit. */
  function InitsOut(env: Env, k: Core, p: seq<byte>): Ret {
    var k1 := k.(clientKexInit := p, hist := k.hist.(dropped := 0));
    if k1.kexInitSent then Ret(k1, true) else SendKexInit(env, k1)
  }

  lemma InitsOutStep(env: Env, k: Core, seen: Seen, p: seq<byte>)
    requires KexInv(k, seen) && !k.state.StClosed? && Is(p, MSG_KEXINIT)
    requires k.kex.KxIdle? || k.kex.KxWaitKexInit?
    ensures var r := InitsOut(env, k, p);
      && BothInits(k, r.k, seen, p)
      && r.k.state == (if r.ok then k.state else StClosed)
      && (OutOk(env, k) ==> OutOk(env, r.k))
  {
    hide SendKexInit;
    hide TraceOf;
    hide Agreed;
    hide OursIn;
    hide Chain;
    hide EpochsOk;
    var k1 := k.(clientKexInit := p, hist := k.hist.(dropped := 0));
    if !k1.kexInitSent {
      SendInit(env, k1);
    }
  }

  lemma KexInitOk(env: Env, k: Core, seen: Seen, p: seq<byte>)
    requires KexInv(k, seen) && !k.state.StClosed? && !k.state.StVersion? && Is(p, MSG_KEXINIT)
    ensures TransportOk(env, k, See(seen, p), OnKexInit(env, k, p))
  {
    hide SendKexInit;
    hide Negotiate;
    hide TransportOk;
    hide KexInv;
    hide Fail;
    FailOk(env, k, seen, See(seen, p), DISC_PROTOCOL_ERROR, "unexpected KEXINIT");
    if k.kex.KxIdle? || k.kex.KxWaitKexInit? {
      InitsOutStep(env, k, seen, p);
      var r := InitsOut(env, k, p);
      if r.ok {
        var k2 := r.k.(kexInitSent := false);
        NegotiateStep(env, k2);
        AfterNegotiate(env, k, k2, seen, p, Negotiate(env, k2));
      } else {
        NoInit(env, k, seen, p, r);
      }
    }
  }

  lemma NoInit(env: Env, k: Core, seen: Seen, p: seq<byte>, r: Ret)
    requires KexInv(k, seen) && BothInits(k, r.k, seen, p) && r.k.state.StClosed? && (OutOk(env, k) ==> OutOk(env, r.k))
    ensures TransportOk(env, k, See(seen, p), r)
  {
    hide TraceOf;
    hide Agreed;
    hide OursIn;
    hide Chain;
    hide EpochsOk;
  }

  lemma AfterNegotiate(env: Env, k: Core, k2: Core, seen: Seen, p: seq<byte>, n: Ret)
    requires KexInv(k, seen) && !k.state.StClosed? && !k.state.StVersion? && Is(p, MSG_KEXINIT)
    requires k.kex.KxIdle? || k.kex.KxWaitKexInit?
    requires BothInits(k, k2, seen, p) && k2.state == k.state && !k2.kexInitSent && (OutOk(env, k) ==> OutOk(env, k2))
    requires NegotiateOutcome(env, k2, n)
    ensures TransportOk(env, k, See(seen, p), if n.ok then Ret(n.k.(kex := KxWaitDh), true) else n)
  {
    hide TraceOf;
    hide Agreed;
    hide OursIn;
    hide Chain;
    hide EpochsOk;
    hide Note;
    if !n.ok {
      var k1 :| Settled(k2, k1) && Quiet(env, k1, n.k) && n.k.state.StClosed?;
      NegotiateClosed(env, k, k2, k1, seen, p, n);
    }
  }

  lemma NegotiateClosed(env: Env, k: Core, k2: Core, k1: Core, seen: Seen, p: seq<byte>, n: Ret)
    requires KexInv(k, seen) && BothInits(k, k2, seen, p) && (OutOk(env, k) ==> OutOk(env, k2))
    requires Settled(k2, k1) && Quiet(env, k1, n.k) && n.k.state.StClosed?
    ensures TransportOk(env, k, See(seen, p), n)
  {
    hide TraceOf;
    hide Agreed;
    hide OursIn;
    hide Chain;
    hide EpochsOk;
    hide Note;
    hide See;
  }

  predicate WithHash(k: Core, k1: Core) {
    && k1 == k.(sid := k1.sid, hist := k.hist.(hashes := k1.hist.hashes))
    && |k1.hist.hashes| == |k.hist.hashes| + 1 && k1.hist.hashes[..|k.hist.hashes|] == k.hist.hashes
    && k1.sid == Some(if k.sid.Some? then k.sid.value else k1.hist.hashes[|k.hist.hashes|])
  }

  /** The reply is out, NEWKEYS perhaps. */
  predicate RepliesOut(k: Core, k': Core, newKeys: bool) {
    var t := TraceOf(k'.hist.sent);
    && SessFrame(k, k')
    && WithHash(k, k.(sid := k'.sid, hist := k.hist.(hashes := k'.hist.hashes)))
    && k' == k.(state := k'.state, drawn := k'.drawn, writes := k'.writes, sid := k'.sid,
                outDir := k.outDir.(pos := k'.outDir.pos, seqNo := k'.outDir.seqNo),
                hist := k.hist.(sent := k'.hist.sent, hashes := k'.hist.hashes))
    && var t0 := TraceOf(k.hist.sent);
       t == if newKeys then t0.(newKeys := t0.newKeys + 1, open := false) else t0
  }

  lemma ReplyStep(env: Env, k: Core, k1: Core, payload: seq<byte>)
    requires !k.state.StClosed? && WithHash(k, k1) && Is(payload, MSG_KEXDH_REPLY) && |payload| <= MAX_PAYLOAD
    ensures var r := SendPacket(env, k1, payload);
      && RepliesOut(k, r.k, false) && r.k.state == (if r.ok then k.state else StClosed)
      && (OutOk(env, k) ==> OutOk(env, r.k))
  {
    hide SendPacket;
    hide TraceOf;
    hide Agreed;
    hide OursIn;
    hide Chain;
    hide EpochsOk;
    Send(env, k1, payload);
    if OutOk(env, k) {
      assert OutOk(env, k1);
      SendOut(env, k1, payload);
    }
  }

  lemma NewKeysStep(env: Env, k: Core, k1: Core)
    requires !k1.state.StClosed? && RepliesOut(k, k1, false)
    ensures var r := SendPacket(env, k1, [MSG_NEWKEYS]);
      && RepliesOut(k, r.k, true) && r.k.state == (if r.ok then k1.state else StClosed)
      && (OutOk(env, k1) && !r.ok ==> OutOk(env, r.k))
  {
    hide SendPacket;
    hide TraceOf;
    hide Agreed;
    hide OursIn;
    hide Chain;
    hide EpochsOk;
    Send(env, k1, [MSG_NEWKEYS]);
    if OutOk(env, k1) {
      SendOut(env, k1, [MSG_NEWKEYS]);
    }
  }

  lemma ClosedInReply(env: Env, k: Core, k': Core, seen: Seen, newKeys: bool)
    requires KexInv(k, seen) && RepliesOut(k, k', newKeys) && k'.state.StClosed? && (OutOk(env, k) ==> OutOk(env, k'))
    ensures TransportOk(env, k, seen, Ret(k', false))
  {
    hide TraceOf;
    hide Agreed;
    hide OursIn;
    hide Chain;
    hide EpochsOk;
  }

  lemma Switched(env: Env, k: Core, k2: Core, seen: Seen, outKeys: Keys, inKeys: Keys)
    requires KexInv(k, seen) && RepliesOut(k, k2, true) && k2.state == k.state && !k.state.StClosed? && k.kex.KxWaitDh? && !k.ignoreNext
    requires OutOk(env, k) ==> OutOk(env, SwitchOut(k2, outKeys, inKeys))
    ensures TransportOk(env, k, seen, Ret(SwitchOut(k2, outKeys, inKeys), true))
  {
    hide TraceOf;
    hide Agreed;
    hide OursIn;
    hide Chain;
    hide EpochsOk;
  }

  lemma FinishOk(env: Env, k: Core, seen: Seen, qc: seq<byte>, qs: seq<byte>, shared: seq<byte>)
    requires KexInv(k, seen) && !k.state.StClosed? && k.kex.KxWaitDh? && !k.ignoreNext && |qs| == 32
    ensures TransportOk(env, k, seen, FinishKex(env, k, qc, qs, shared))
  {
    hide SendPacket;
    hide TraceOf;
    hide Agreed;
    hide OursIn;
    hide OutOk;
    hide KexInv;
    hide TransportOk;
    hide RepliesOut;
    hide SwitchOut;
    hide CutKeys;
    hide HashFor;
    var h := HashFor(env, k, qc, qs, shared);
    var sid := if k.sid.Some? then k.sid.value else h;
    var k1 := k.(sid := Some(sid), hist := k.hist.(hashes := k.hist.hashes + [h]));
    var reply := KexReply(env, qs, h);
    ReplyStep(env, k, k1, reply);
    var r1 := SendPacket(env, k1, reply);
    if !r1.ok {
      ClosedInReply(env, k, r1.k, seen, false);
    } else {
      NewKeysStep(env, k, r1.k);
      var r2 := SendPacket(env, r1.k, [MSG_NEWKEYS]);
      if !r2.ok {
        ClosedInReply(env, k, r2.k, seen, true);
      } else {
        var kMp := MpintOf(shared);
        var outKeys := CutKeys(env, kMp, h, sid, S2C, k.next.encOut, k.next.macOut);
        var inKeys := CutKeys(env, kMp, h, sid, C2S, k.next.encIn, k.next.macIn);
        if OutOk(env, k) {
          SwitchOk(env, r1.k, outKeys, inKeys);
        }
        assert FinishKex(env, k, qc, qs, shared) == Ret(SwitchOut(r2.k, outKeys, inKeys), true);
        Switched(env, k, r2.k, seen, outKeys, inKeys);
      }
    }
  }

  lemma DrawnOnly(env: Env, k: Core, k1: Core, seen: Seen, r: Ret)
    requires k1 == k.(drawn := k1.drawn) && TransportOk(env, k1, seen, r)
    ensures TransportOk(env, k, seen, r)
  {
    hide TraceOf;
    hide Agreed;
    hide OursIn;
    hide Chain;
    hide EpochsOk;
    hide KexInv;
  }

  lemma KexDhInitOk(env: Env, k: Core, seen: Seen, p: seq<byte>)
    requires KexInv(k, seen) && !k.state.StClosed? && Is(p, MSG_KEXDH_INIT) && !k.ignoreNext
    ensures TransportOk(env, k, seen, OnKexDhInit(env, k, p))
  {
    hide TransportOk;
    hide FinishKex;
    hide Fail;
    hide RStr;
    hide KexInv;
    FailOk(env, k, seen, seen, DISC_PROTOCOL_ERROR, "unexpected KEXDH_INIT");
    FailOk(env, k, seen, seen, DISC_KEY_EXCHANGE_FAILED, "bad KEXDH_INIT");
    var (qc, r) := RStr(RInit(p[1..]));
    if k.kex.KxWaitDh? && !r.err && |qc| == 32 {
      var priv := Random(env, k.drawn, 32);
      var k1 := k.(drawn := k.drawn + 32);
      DrawnKeeps(k, k1, seen);
      FailOk(env, k1, seen, seen, DISC_KEY_EXCHANGE_FAILED, "curve25519 failure");
      DrawnOnly(env, k, k1, seen, Fail(env, k1, DISC_KEY_EXCHANGE_FAILED, "curve25519 failure"));
      var s := DhShared(env, priv, qc);
      if s.Some? {
        FinishOk(env, k1, seen, qc, DhPublic(env, priv), s.value);
        DrawnOnly(env, k, k1, seen, FinishKex(env, k1, qc, DhPublic(env, priv), s.value));
      }
    }
  }

  lemma DrawnKeeps(k: Core, k1: Core, seen: Seen)
    requires KexInv(k, seen) && k1 == k.(drawn := k1.drawn)
    ensures KexInv(k1, seen)
  {
    hide TraceOf;
    hide Agreed;
    hide OursIn;
  }

  lemma NewKeysOk(env: Env, k: Core, seen: Seen, p: seq<byte>)
    requires KexInv(k, seen) && !k.state.StClosed? && IsNewKeys(p)
    ensures TransportOk(env, k, See(seen, p), OnNewKeys(env, k))
  {
    hide TraceOf;
    hide Agreed;
    hide OursIn;
    hide Chain;
    hide EpochsOk;
    hide Fail;
    if !k.kex.KxWaitNewKeys? {
      FailOk(env, k, seen, See(seen, p), DISC_PROTOCOL_ERROR, "unexpected NEWKEYS");
    }
  }

  lemma ServiceRequestOk(env: Env, k: Core, seen: Seen, p: seq<byte>)
    requires KexInv(k, seen) && !k.state.StClosed? && p != []
    ensures TransportOk(env, k, seen, OnServiceRequest(env, k, p))
  {
    hide OnServiceRequest;
    hide KexInv;
    hide OutOk;
    hide SessFrame;
    hide TraceOf;
    hide Agreed;
    hide OursIn;
    ServiceRequestStep(env, k, p);
    KexFrameKeeps(k, OnServiceRequest(env, k, p).k, seen);
  }

  lemma OtherOk(env: Env, k: Core, seen: Seen)
    requires KexInv(k, seen) && !k.state.StClosed?
    ensures TransportOk(env, k, seen, OnOther(env, k))
  {
    hide TransportOk;
    hide SendPacket;
    SendOk(env, k, seen, [MSG_UNIMPLEMENTED] + PutU32(Low32(k.inDir.seqNo - 1)));
  }

  lemma ClientLeft(env: Env, k: Core, seen: Seen)
    requires KexInv(k, seen)
    ensures TransportOk(env, k, seen, Ret(k.(state := StClosed), false))
  {
    hide TraceOf;
    hide Agreed;
    hide OursIn;
    hide Chain;
    hide EpochsOk;
  }

  lemma HandleTransportOk(env: Env, k: Core, seen: Seen, p: seq<byte>)
    requires KexInv(k, seen) && !k.state.StClosed? && !k.state.StVersion? && p != [] && !GuessDropped(k, p[0])
    ensures TransportOk(env, k, See(seen, p), HandleTransport(env, k, p))
  {
    hide TransportOk;
    hide KexInv;
    hide OnKexInit;
    hide OnKexDhInit;
    hide OnNewKeys;
    hide OnServiceRequest;
    hide OnOther;
    StayOk(env, k, seen);
    ClientLeft(env, k, seen);
    if Is(p, MSG_KEXINIT) {
      KexInitOk(env, k, seen, p);
    } else if IsNewKeys(p) {
      NewKeysOk(env, k, seen, p);
    } else {
      ServiceRequestOk(env, k, seen, p);
      OtherOk(env, k, seen);
      if Is(p, MSG_KEXDH_INIT) {
        KexDhInitOk(env, k, seen, p);
      }
    }
  }
}
