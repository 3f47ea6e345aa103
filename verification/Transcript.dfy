/** Everything the server says in any run: which packets there are, what each of them reads as, and whom it is addressed to;
    how many logins it has confirmed and how many services it has started. */
module Transcript {
  import opened Bytes
  import opened Wire
  import opened Algorithms
  import opened Environment
  import opened RecordLayer
  import opened KeySchedule
  import opened Session
  import opened SessionFrames
  import opened Randomness
  import opened ServiceInvariants
  import K = KexInvariants
  import KA = KeyAgreement
  import opened Connection
  import opened Runs
  import opened Dialogue

  // ---- packets ----

  /** Addressed to this channel of the client's, with these items behind the number, and nothing else. */
  predicate To(p: seq<byte>, rest: seq<Item>, remote: uint32) {
    var f := Fields(p, [WORD] + rest);
    f.Some? && f.value[0] == IU32(remote)
  }

  /** The packets that belong to the client's channel `remote`. */
  predicate OnChannel(p: seq<byte>, remote: uint32)
    requires p != []
  {
    if p[0] == 91 then p == Message(91, [IU32(remote), IU32(0), IU32(32768), IU32(32768)])
    else if p[0] == 93 then To(p, [WORD], remote)
    else if p[0] == 94 then To(p, [NAME], remote)
    else if p[0] == 98 then
      To(p, [NAME, FLAG, WORD], remote) && Fields(p, [WORD, NAME, FLAG, WORD]).value[1..3] == [IStr(Ascii("exit-status")), IByte(0)]
    else p[0] in {96, 97, 99, 100} && To(p, [], remote)
  }

  /** The packets that belong to none. */
  predicate OffChannel(p: seq<byte>)
    requires p != []
  {
    if p[0] == 1 then Fields(p, [WORD, NAME, NAME]).Some?
    else if p[0] == 3 then Fields(p, [WORD]).Some?
    else if p[0] == 6 then p == Message(6, [IStr(Ascii("ssh-userauth"))])
    else if p[0] == 20 then |p| >= 17 && p[17..] == Encoded(K.OurOffer())
    else if p[0] == 31 then Fields(p, [NAME, NAME, NAME]).Some?
    else if p[0] == 51 then p == Message(51, [IStr(Ascii("password")), IByte(0)])
    else if p[0] == 92 then Fields(p, [WORD, WORD, NAME, NAME]).Some?
    else p[0] in {21, 52, 82} && |p| == 1
  }

  predicate WellSaid(p: seq<byte>, remote: Option<uint32>) {
    p != [] && (OffChannel(p) || (remote.Some? && OnChannel(p, remote.value)))
  }

  ghost predicate AllWellSaid(ps: seq<seq<byte>>, remote: Option<uint32>) {
    forall i :: 0 <= i < |ps| ==> WellSaid(ps[i], remote)
  }

  function CountOf(ps: seq<seq<byte>>, n: byte): nat {
    if ps == [] then 0 else CountOf(ps[..|ps| - 1], n) + if Is(ps[|ps| - 1], n) then 1 else 0
  }

  lemma {:induction false} CountAdds(a: seq<seq<byte>>, b: seq<seq<byte>>, n: byte)
    ensures CountOf(a + b, n) == CountOf(a, n) + CountOf(b, n)
    decreases |b|
  {
    if b == [] {
      assert a + b == a;
    } else {
      assert (a + b)[..|a + b| - 1] == a + b[..|b| - 1];
      CountAdds(a, b[..|b| - 1], n);
    }
  }

  // ---- what has been heard ----

  /** The client's number for the first session channel it has asked for. */
  function FirstOpen(heard: seq<seq<byte>>): Option<uint32> {
    if heard == [] then None
    else
      var before := FirstOpen(heard[..|heard| - 1]);
      if before.Some? then before else AsksToOpen(heard[|heard| - 1])
  }

  function AsksToOpen(p: seq<byte>): Option<uint32> {
    if !Is(p, 90) then None
    else
      var (got, end) := RAll(RInit(p[1..]), [NAME, WORD, WORD, WORD]);
      if end.err || got[0] != IStr(Ascii("session")) then None else Some(Number(got[1]))
  }

  predicate AsksForLogin(p: seq<byte>) {
    Is(p, 5) &&
    var (got, end) := RAll(RInit(p[1..]), [NAME]);
    !end.err && got[0] == IStr(Ascii("ssh-userauth"))
  }

  function Requests(heard: seq<seq<byte>>): nat {
    if heard == [] then 0
    else Requests(heard[..|heard| - 1]) + if AsksForLogin(heard[|heard| - 1]) then 1 else 0
  }

  lemma HeardSnoc(h: seq<seq<byte>>, p: seq<byte>)
    ensures FirstOpen(h + [p]) == if FirstOpen(h).Some? then FirstOpen(h) else AsksToOpen(p)
    ensures Requests(h + [p]) == Requests(h) + if AsksForLogin(p) then 1 else 0
  {
    hide AsksForLogin;
    hide AsksToOpen;
    assert (h + [p])[..|h|] == h;
  }

  // ---- the invariant ----

  function Remote(k: Core): Option<uint32> {
    if k.chan.open then Some(k.chan.remote) else None
  }

  /** Every packet is one of these, and as many logins are confirmed as the callback has consented to. */
  ghost predicate SaidOk(k: Core) {
    AllWellSaid(Said(k.hist.sent), Remote(k)) && CountOf(Said(k.hist.sent), 52) == Yes(k.hist.auths)
  }

  /** The channel is the one first asked for, and every request for the login service has been answered. */
  ghost predicate HeardOk(k: Core) {
    && (k.chan.open ==> FirstOpen(k.hist.handled) == Some(k.chan.remote))
    && (!k.chan.open && !k.state.StClosed? ==> FirstOpen(k.hist.handled).None?)
    && CountOf(Said(k.hist.sent), 6) <= Requests(k.hist.handled)
    && (!k.state.StClosed? ==> CountOf(Said(k.hist.sent), 6) == Requests(k.hist.handled))
  }

  ghost predicate TalkOk(env: Env, k: Core) {
    SaidOk(k) && HeardOk(k) && Draws(env, k)
  }

  /** What was well said before the channel was opened is so afterwards. */
  predicate Onto(k: Core, k': Core) {
    k.chan.open ==> k'.chan.open && k'.chan.remote == k.chan.remote
  }

  lemma SaidMore(k: Core, k': Core, ps: seq<seq<byte>>)
    requires SaidOk(k) && Adds(k, k', ps) && Onto(k, k') && AllWellSaid(ps, Remote(k'))
    requires CountOf(ps, 52) + Yes(k.hist.auths) == Yes(k'.hist.auths)
    ensures SaidOk(k')
  {
    hide WellSaid;
    CountAdds(Said(k.hist.sent), ps, 52);
    var (a, b) := (Said(k.hist.sent), Said(k'.hist.sent));
    forall i | 0 <= i < |b|
      ensures WellSaid(b[i], Remote(k'))
    {
      if i < |a| {
        assert WellSaid(a[i], Remote(k));
        StillWell(a[i], Remote(k), Remote(k'));
      } else {
        assert b[i] == ps[i - |a|];
      }
    }
  }

  lemma StillWell(p: seq<byte>, before: Option<uint32>, after: Option<uint32>)
    requires WellSaid(p, before) && (before.Some? ==> after == before)
    ensures WellSaid(p, after)
  {
    hide OffChannel;
    hide OnChannel;
  }

  /** One packet that confirms nothing. */
  lemma One(p: seq<byte>, remote: Option<uint32>)
    requires p != [] && WellSaid(p, remote)
    ensures AllWellSaid([p], remote)
    ensures CountOf([p], 52) == (if p[0] == 52 then 1 else 0) && CountOf([p], 6) == (if p[0] == 6 then 1 else 0)
  {
    hide WellSaid;
    var none: seq<seq<byte>> := [];
    assert [p][..0] == none;
    assert CountOf(none, 52) == 0 && CountOf(none, 6) == 0;
  }

  lemma Nothing(remote: Option<uint32>)
    ensures AllWellSaid([], remote) && CountOf([], 52) == 0 && CountOf([], 6) == 0
  {
  }

  // ---- the key exchange says nothing about logins and channels ----

  predicate KexTalk(p: seq<byte>) {
    p != [] && OffChannel(p) && p[0] != 52 && p[0] != 6
  }

  /** Only such packets have gone out, and the login and the channel are as they were. */
  ghost predicate Mutters(env: Env, k: Core, k': Core) {
    && k.hist.sent <= k'.hist.sent && (forall i :: |k.hist.sent| <= i < |k'.hist.sent| ==> KexTalk(k'.hist.sent[i].payload))
    && k'.chan == k.chan && k'.hist.auths == k.hist.auths && k'.hist.handled == k.hist.handled
    && (Draws(env, k) ==> Draws(env, k'))
  }

  lemma MuttersOn(env: Env, a: Core, b: Core, c: Core)
    requires Mutters(env, a, b) && Mutters(env, b, c)
    ensures Mutters(env, a, c)
  {
    hide KexTalk;
  }

  /** A session from which only the draw for the next packet, if it has one, is still missing. */
  predicate Before(k0: Core, k: Core, p: seq<byte>) {
    && k0.hist.sent == k.hist.sent && k0.drawn + Lead(p) == k.drawn
    && k0.chan == k.chan && k0.hist.auths == k.hist.auths && k0.hist.handled == k.hist.handled
  }

  lemma SendMutters(env: Env, k0: Core, k: Core, p: seq<byte>)
    requires !k.state.StClosed? && |p| <= MAX_PAYLOAD && KexTalk(p) && Before(k0, k, p) && Led(env, p, k.drawn)
    ensures var r := SendPacket(env, k, p);
      Mutters(env, k0, r.k) && (r.ok ==> r.k.state == k.state)
  {
    hide SendPacket;
    hide TraceOf;
    hide OffChannel;
    hide Drawn;
    hide Led;
    hide Lead;
    Send(env, k, p);
    if Draws(env, k0) {
      SendDraws(env, k, p, k0.drawn);
    }
  }

  lemma ReasonTalk(reason: uint32, why: string)
    requires |why| <= 1000
    ensures KexTalk(DisconnectMsg(reason, why)) && |DisconnectMsg(reason, why)| <= MAX_PAYLOAD && DisconnectMsg(reason, why)[0] == 1
  {
    hide Encoded;
    hide Fields;
    hide PutU32;
    var items := [IU32(reason), IStr(Ascii(why)), IStr([])];
    MessageThree(1, items[0], items[1], items[2]);
    SizeOfThree(items[0], items[1], items[2]);
    MessageFields(1, items, [WORD, NAME, NAME]);
  }

  lemma FailMutters(env: Env, k: Core, reason: uint32, why: string)
    requires !k.state.StClosed? && |why| <= 1000
    ensures Mutters(env, k, Fail(env, k, reason, why).k) && Fail(env, k, reason, why).k.state.StClosed?
  {
    hide SendPacket;
    hide KexTalk;
    hide DisconnectMsg;
    ReasonTalk(reason, why);
    SendMutters(env, k, k, DisconnectMsg(reason, why));
  }

  predicate NextOnly(k: Core, k': Core) {
    k' == k.(next := k'.next, ignoreNext := k'.ignoreNext)
  }

  lemma FailAfter(env: Env, k0: Core, k: Core, reason: uint32, why: string)
    requires NextOnly(k0, k) && !k.state.StClosed? && |why| <= 1000
    ensures Mutters(env, k0, Fail(env, k, reason, why).k) && !Fail(env, k, reason, why).ok
  {
    hide Disconnect;
    hide KexTalk;
    FailMutters(env, k, reason, why);
  }

  lemma MacsMutter(env: Env, k0: Core, k: Core, l: KexLists)
    requires NextOnly(k0, k) && !k.state.StClosed?
    ensures Mutters(env, k0, NegotiateMacs(env, k, l).k)
  {
    hide Fail;
    hide Pick;
    hide MacTypeOf;
    hide KexTalk;
    FailAfter(env, k0, k, DISC_KEY_EXCHANGE_FAILED, "no common MAC (need hmac-sha2-256)");
    var (macIn, macOut) := (Pick(l.macCs, OUR_LISTS.macCs), Pick(l.macSc, OUR_LISTS.macSc));
    if macIn.Some? {
      var k1 := k.(next := k.next.(macIn := MacTypeOf(macIn.value)));
      FailAfter(env, k0, k1, DISC_KEY_EXCHANGE_FAILED, "no common MAC (need hmac-sha2-256)");
      if macOut.Some? {
        FailAfter(env, k0, k1.(next := k1.next.(macOut := MacTypeOf(macOut.value))), DISC_KEY_EXCHANGE_FAILED, "compression not supported");
      }
    }
  }

  lemma CiphersMutter(env: Env, k0: Core, k: Core, l: KexLists)
    requires NextOnly(k0, k) && !k.state.StClosed?
    ensures Mutters(env, k0, NegotiateCiphers(env, k, l).k)
  {
    hide Fail;
    hide Pick;
    hide EncKeyLen;
    hide NegotiateMacs;
    hide Mutters;
    FailAfter(env, k0, k, DISC_KEY_EXCHANGE_FAILED, "no common cipher (need aes-ctr)");
    var (encIn, encOut) := (Pick(l.encCs, OUR_LISTS.encCs), Pick(l.encSc, OUR_LISTS.encSc));
    if encIn.Some? {
      var k1 := k.(next := k.next.(encIn := EncKeyLen(encIn.value)));
      FailAfter(env, k0, k1, DISC_KEY_EXCHANGE_FAILED, "no common cipher (need aes-ctr)");
      if encOut.Some? {
        MacsMutter(env, k0, k1.(next := k1.next.(encOut := EncKeyLen(encOut.value))), l);
      }
    }
  }

  lemma NegotiateMutters(env: Env, k: Core)
    requires !k.state.StClosed?
    ensures Mutters(env, k, Negotiate(env, k).k)
  {
    hide Fail;
    hide Pick;
    hide ParseKex;
    hide WrongGuess;
    hide NegotiateCiphers;
    hide Mutters;
    FailAfter(env, k, k, DISC_PROTOCOL_ERROR, "short KEXINIT");
    FailAfter(env, k, k, DISC_PROTOCOL_ERROR, "bad KEXINIT");
    FailAfter(env, k, k, DISC_KEY_EXCHANGE_FAILED, "no common kex algorithm (need curve25519-sha256)");
    if |k.clientKexInit| >= 17 && ParseKex(k.clientKexInit[17..]).Some? {
      var l := ParseKex(k.clientKexInit[17..]).value;
      var kex := Pick(l.kex, OUR_LISTS.kex);
      if kex.Some? {
        var k1 := k.(ignoreNext := WrongGuess(l, kex.value));
        FailAfter(env, k, k1, DISC_KEY_EXCHANGE_FAILED, "no common host key algorithm (need ssh-ed25519)");
        CiphersMutter(env, k, k1, l);
      }
    }
  }

  lemma CookieFront(cookie: seq<byte>, rest: seq<byte>)
    requires |cookie| == 16
    ensures var p := [20] + cookie + rest;
      |p| >= 17 && p[0] == 20 && p[1..17] == cookie && p[17..] == rest
  {
  }

  lemma CookieLed(env: Env, at: nat)
    ensures var payload := KexInitMsg(Random(env, at, 16));
      KexTalk(payload) && |payload| <= MAX_PAYLOAD && Lead(payload) == 16 && Led(env, payload, at + 16)
  {
    hide KexInitMsg;
    hide Encoded;
    hide K.OurOffer;
    hide K.OursIn;
    hide Fields;
    var cookie := Random(env, at, 16);
    K.OurKexInit(cookie);
    K.OfferIs(cookie);
    CookieFront(cookie, Encoded(K.OurOffer()));
  }

  lemma InitMutters(env: Env, k: Core)
    requires !k.state.StClosed?
    ensures Mutters(env, k, SendKexInit(env, k).k) && (SendKexInit(env, k).ok ==> SendKexInit(env, k).k.state == k.state)
  {
    hide SendPacket;
    hide KexInitMsg;
    hide KexTalk;
    hide Led;
    hide Lead;
    hide Drawn;
    var payload := KexInitMsg(Random(env, k.drawn, 16));
    CookieLed(env, k.drawn);
    SendMutters(env, k, k.(drawn := k.drawn + 16, serverKexInit := payload, kexInitSent := true), payload);
  }

  lemma KexInitMutters(env: Env, k: Core, p: seq<byte>)
    requires !k.state.StClosed?
    ensures Mutters(env, k, OnKexInit(env, k, p).k)
  {
    hide SendKexInit;
    hide Fail;
    hide Negotiate;
    hide KexTalk;
    FailMutters(env, k, DISC_PROTOCOL_ERROR, "unexpected KEXINIT");
    var k1 := k.(clientKexInit := p, hist := k.hist.(dropped := 0));
    InitMutters(env, k1);
    var r := if k1.kexInitSent then Ret(k1, true) else SendKexInit(env, k1);
    if r.ok {
      NegotiateMutters(env, r.k.(kexInitSent := false));
    }
  }

  lemma ReplyLed(env: Env, at: nat, h: seq<byte>)
    ensures var payload := KexReply(env, DhPublic(env, Random(env, at, 32)), h);
      KexTalk(payload) && |payload| <= MAX_PAYLOAD && Lead(payload) == 32 && Led(env, payload, at + 32)
  {
    hide RAll;
    hide HostKeyBlob;
    hide Encoded;
    KA.BlobSmall(env);
    KA.ReplyParses(env, DhPublic(env, Random(env, at, 32)), h);
  }

  lemma NewKeysPlain(env: Env, at: nat)
    ensures KexTalk([21]) && Lead([21]) == 0 && Led(env, [21], at)
  {
  }

  /** k0 is the session before the private key was drawn. */
  lemma FinishMutters(env: Env, k0: Core, qc: seq<byte>, shared: seq<byte>)
    requires !k0.state.StClosed?
    ensures Mutters(env, k0, FinishKex(env, k0.(drawn := k0.drawn + 32), qc, DhPublic(env, Random(env, k0.drawn, 32)), shared).k)
  {
    hide SendPacket;
    hide KexReply;
    hide KexTalk;
    hide CutKeys;
    hide MpintOf;
    hide HashFor;
    hide Led;
    hide Lead;
    hide Drawn;
    var (k, qs) := (k0.(drawn := k0.drawn + 32), DhPublic(env, Random(env, k0.drawn, 32)));
    var h := HashFor(env, k, qc, qs, shared);
    var sid := if k.sid.Some? then k.sid.value else h;
    var k1 := k.(sid := Some(sid), hist := k.hist.(hashes := k.hist.hashes + [h]));
    ReplyLed(env, k0.drawn, h);
    SendMutters(env, k0, k1, KexReply(env, qs, h));
    var r1 := SendPacket(env, k1, KexReply(env, qs, h));
    if r1.ok {
      NewKeysPlain(env, r1.k.drawn);
      SendMutters(env, r1.k, r1.k, [21]);
      MuttersOn(env, k0, r1.k, SendPacket(env, r1.k, [21]).k);
    }
  }

  lemma KexDhInitMutters(env: Env, k: Core, p: seq<byte>)
    requires !k.state.StClosed? && p != []
    ensures Mutters(env, k, OnKexDhInit(env, k, p).k)
  {
    hide RStr;
    hide Fail;
    hide FinishKex;
    hide KexTalk;
    hide Drawn;
    FailMutters(env, k, DISC_PROTOCOL_ERROR, "unexpected KEXDH_INIT");
    FailMutters(env, k, DISC_KEY_EXCHANGE_FAILED, "bad KEXDH_INIT");
    var qc := RStr(RInit(p[1..])).0;
    if |qc| == 32 {
      var k1 := k.(drawn := k.drawn + 32);
      FailMutters(env, k1, DISC_KEY_EXCHANGE_FAILED, "curve25519 failure");
      DrawnMore(env, k.hist.sent, k.drawn, k1.drawn);
      var shared := DhShared(env, Random(env, k.drawn, 32), qc);
      if shared.Some? {
        FinishMutters(env, k, qc, shared.value);
      }
    }
  }

  lemma NewKeysMutters(env: Env, k: Core)
    requires !k.state.StClosed?
    ensures Mutters(env, k, OnNewKeys(env, k).k)
  {
    hide Fail;
    hide KexTalk;
    FailMutters(env, k, DISC_PROTOCOL_ERROR, "unexpected NEWKEYS");
  }

  // ---- one payload ----

  /** What a payload adds, and what it says of channel and services. */
  lemma AnswerOk(env: Env, k: Core, p: seq<byte>, want: Core, k': Core, ps: seq<seq<byte>>)
    requires TalkOk(env, k) && !k.state.StClosed?
    requires want.hist.sent == k.hist.sent && want.hist.handled == k.hist.handled + [p] && Onto(k, want)
    requires Adds(want, k', ps) && k'.chan == want.chan && k'.hist.handled == want.hist.handled && k'.hist.auths == want.hist.auths
    requires AllWellSaid(ps, Remote(want)) && CountOf(ps, 52) + Yes(k.hist.auths) == Yes(want.hist.auths)
    requires CountOf(ps, 6) <= (if AsksForLogin(p) then 1 else 0)
    requires !k'.state.StClosed? ==> (AsksForLogin(p) ==> CountOf(ps, 6) == 1)
    requires want.chan.open && !k.chan.open ==> AsksToOpen(p) == Some(want.chan.remote)
    requires !want.chan.open && !k'.state.StClosed? ==> AsksToOpen(p).None?
    requires Draws(env, k) ==> Draws(env, k')
    ensures TalkOk(env, k')
  {
    hide AllWellSaid;
    hide AsksForLogin;
    hide AsksToOpen;
    SaidMore(k, k', ps);
    HeardSnoc(k.hist.handled, p);
    CountAdds(Said(k.hist.sent), ps, 6);
  }

  lemma {:induction false} NoneOf(ps: seq<seq<byte>>, n: byte)
    requires forall i :: 0 <= i < |ps| ==> !Is(ps[i], n)
    ensures CountOf(ps, n) == 0
    decreases |ps|
  {
    if ps != [] {
      NoneOf(ps[..|ps| - 1], n);
    }
  }

  lemma Muttered(env: Env, k: Core, k': Core) returns (ps: seq<seq<byte>>)
    requires Mutters(env, k, k')
    ensures Adds(k, k', ps) && CountOf(ps, 52) == 0 && CountOf(ps, 6) == 0
    ensures forall remote :: AllWellSaid(ps, remote)
  {
    hide OffChannel;
    hide OnChannel;
    var (a, b) := (Said(k.hist.sent), Said(k'.hist.sent));
    ps := b[|a|..];
    forall i | 0 <= i < |ps|
      ensures KexTalk(ps[i])
    {
      assert ps[i] == k'.hist.sent[|a| + i].payload;
    }
    NoneOf(ps, 52);
    NoneOf(ps, 6);
  }

  /** Nothing of the dialogue in the answer, and nothing of it in the question. */
  lemma MutterOk(env: Env, k: Core, p: seq<byte>, k': Core)
    requires TalkOk(env, k) && !k.state.StClosed? && Mutters(env, Heard(k, p), k')
    requires k'.state.StClosed? || (!AsksForLogin(p) && (k.chan.open || AsksToOpen(p).None?))
    ensures TalkOk(env, k')
  {
    hide TalkOk;
    hide AsksForLogin;
    hide AsksToOpen;
    hide KexTalk;
    hide AllWellSaid;
    var ps := Muttered(env, Heard(k, p), k');
    AnswerOk(env, k, p, Heard(k, p), k', ps);
  }

  /** A session that differs from one that has heard p only where the dialogue does not look. */
  predicate Hears(k: Core, p: seq<byte>, want: Core) {
    want.hist.sent == k.hist.sent && want.hist.handled == k.hist.handled + [p] && want.drawn == k.drawn
  }

  lemma RefusesOk(env: Env, k: Core, p: seq<byte>, want: Core, r: Ret, reason: uint32, why: string)
    requires TalkOk(env, k) && !k.state.StClosed? && Hears(k, p, want) && want.chan == k.chan && Yes(want.hist.auths) == Yes(k.hist.auths)
    requires Refuses(env, want, r, reason, why) && |why| <= 1000
    ensures TalkOk(env, r.k)
  {
    hide TalkOk;
    hide OffChannel;
    hide OnChannel;
    hide AsksForLogin;
    hide AsksToOpen;
    hide Message;
    hide AllWellSaid;
    var q := Message(1, [IU32(reason), IStr(Ascii(why)), IStr([])]);
    MessageThree(1, IU32(reason), IStr(Ascii(why)), IStr([]));
    ReasonTalk(reason, why);
    One(q, Remote(want));
    AnswerOk(env, k, p, want, r.k, [q]);
  }

  /** Silence, or one packet that confirms neither a login nor a service. */
  lemma AnswersOk(env: Env, k: Core, p: seq<byte>, want: Core, k': Core, ps: seq<seq<byte>>)
    requires TalkOk(env, k) && !k.state.StClosed? && Hears(k, p, want) && Onto(k, want) && Yes(want.hist.auths) == Yes(k.hist.auths)
    requires Adds(want, k', ps) && SentOnly(want, k') && k'.chan == want.chan && (Draws(env, want) ==> Draws(env, k'))
    requires ps == [] || (|ps| == 1 && ps[0] != [] && WellSaid(ps[0], Remote(want)) && ps[0][0] != 52 && ps[0][0] != 6)
    requires !AsksForLogin(p)
    requires want.chan.open && !k.chan.open ==> AsksToOpen(p) == Some(want.chan.remote)
    requires !want.chan.open ==> AsksToOpen(p).None?
    ensures TalkOk(env, k')
  {
    hide TalkOk;
    hide WellSaid;
    hide AsksForLogin;
    hide AsksToOpen;
    hide AllWellSaid;
    if ps == [] {
      Nothing(Remote(want));
    } else {
      One(ps[0], Remote(want));
      assert ps == [ps[0]];
    }
    AnswerOk(env, k, p, want, k', ps);
  }

  lemma ServiceTalks(env: Env, k: Core, p: seq<byte>)
    requires TalkOk(env, k) && Listening(k) && Is(p, 5)
    ensures TalkOk(env, Deliver(env, k, p).k)
  {
    hide TalkOk;
    hide Deliver;
    hide Refuses;
    hide Message;
    hide AllWellSaid;
    var (k1, r, q) := (Heard(k, p), Deliver(env, k, p), Message(6, [IStr(Ascii("ssh-userauth"))]));
    ServiceAnswered(env, k, p);
    One(q, Remote(k1));
    if Answers(env, k1, r, [q]) && AsksForLogin(p) {
      AnswerOk(env, k, p, k1, r.k, [q]);
    } else if k.state.StKex? {
      RefusesOk(env, k, p, k1, r, 2, "service request before kex");
    } else {
      RefusesOk(env, k, p, k1, r, 2, "unknown service");
    }
  }

  lemma FailureSaid(remote: Option<uint32>)
    ensures WellSaid(AuthFailure(), remote)
  {
  }

  lemma AdmittedTalks(env: Env, k: Core, p: seq<byte>, want: Core, r: Ret)
    requires TalkOk(env, k) && !k.state.StClosed? && Hears(k, p, want) && want.chan == k.chan && Yes(want.hist.auths) == Yes(k.hist.auths) + 1
    requires Answers(env, want, r, [Message(52, [])]) && Is(p, 50)
    ensures TalkOk(env, r.k)
  {
    hide TalkOk;
    hide AllWellSaid;
    hide Drawn;
    MessageNone(52);
    One(Message(52, []), Remote(k));
    AnswerOk(env, k, p, want, r.k, [Message(52, [])]);
  }

  lemma JudgedTalks(env: Env, k: Core, p: seq<byte>, want: Core, r: Ret, user: seq<byte>, pass: seq<byte>)
    requires TalkOk(env, k) && !k.state.StClosed? && Hears(k, p, want) && want.chan == k.chan && want.hist.auths == k.hist.auths
    requires Judged(env, want, r, user, pass) && Is(p, 50)
    ensures TalkOk(env, r.k)
  {
    hide TalkOk;
    hide Refuses;
    hide AuthFailure;
    hide AllWellSaid;
    hide Adds;
    hide SentOnly;
    hide Drawn;
    hide WellSaid;
    var yes := env.authorize(want.login.tries, user, pass);
    YesSnoc(k.hist.auths, yes);
    var k1 := want.(hist := want.hist.(auths := want.hist.auths + [yes]));
    var k2 := k1.(login := k1.login.(tries := k1.login.tries + 1));
    if yes {
      AdmittedTalks(env, k, p, k1.(login := k1.login.(authenticated := true), state := StConn), r);
    } else if k2.login.tries >= 5 {
      RefusesOk(env, k, p, k2, r, 14, "too many failed attempts");
    } else {
      FailureSaid(Remote(k));
      FailureNumber();
      AnswersOk(env, k, p, k2, r.k, [AuthFailure()]);
    }
  }

  lemma FailureNumber()
    ensures AuthFailure() != [] && AuthFailure()[0] == 51
  {
  }

  lemma AuthTalks(env: Env, k: Core, p: seq<byte>)
    requires TalkOk(env, k) && Listening(k) && Is(p, 50)
    ensures TalkOk(env, Deliver(env, k, p).k)
  {
    hide TalkOk;
    hide Deliver;
    hide Refuses;
    hide Answers;
    hide Judged;
    hide AuthFailure;
    hide CStr;
    var (k1, r) := (Heard(k, p), Deliver(env, k, p));
    if !k.state.StAuth? {
      AuthElsewhere(env, k, p);
      if k.state.StKex? {
        RefusesOk(env, k, p, k1, r, 2, "auth before kex");
      } else {
        MuttersSelf(env, k1);
        MutterOk(env, k, p, k1);
      }
    } else {
      AuthAnswered(env, k, p);
      var (got, end) := RAll(RInit(p[1..]), [NAME, NAME, NAME]);
      var (more, end2) := RAll(end, [FLAG, NAME]);
      var k2 := k1.(login := k1.login.(user := Kept(Text(got[0]))));
      if Refuses(env, k1, r, 2, "bad USERAUTH_REQUEST") {
        RefusesOk(env, k, p, k1, r, 2, "bad USERAUTH_REQUEST");
      } else if Refuses(env, k1, r, 2, "unknown service") {
        RefusesOk(env, k, p, k1, r, 2, "unknown service");
      } else if Answers(env, k2, r, [AuthFailure()]) {
        FailureTalks(env, k, p, k2, r);
      } else {
        JudgedTalks(env, k, p, k2, r, CStr(Kept(Text(got[0]))), CStr(Text(more[1])));
      }
    }
  }

  lemma FailureTalks(env: Env, k: Core, p: seq<byte>, want: Core, r: Ret)
    requires TalkOk(env, k) && !k.state.StClosed? && Hears(k, p, want) && want.chan == k.chan && want.hist.auths == k.hist.auths
    requires Answers(env, want, r, [AuthFailure()]) && Is(p, 50)
    ensures TalkOk(env, r.k)
  {
    hide TalkOk;
    hide AuthFailure;
    FailureSaid(Remote(k));
    FailureNumber();
    AnswersOk(env, k, p, want, r.k, [AuthFailure()]);
  }

  lemma MuttersSelf(env: Env, k: Core)
    ensures Mutters(env, k, k)
  {
  }

  // ---- channels ----

  /** Nothing is said, and the channel stays as open as it was. */
  lemma QuietOk(env: Env, k: Core, p: seq<byte>, k': Core)
    requires TalkOk(env, k) && !k.state.StClosed? && Hears(k, p, k') && k'.hist.auths == k.hist.auths
    requires k'.chan.open == k.chan.open && k'.chan.remote == k.chan.remote && p != [] && p[0] != 5 && p[0] != 90
    ensures TalkOk(env, k')
  {
    hide TalkOk;
    Silent(env, k');
    AnswersOk(env, k, p, k', k', []);
  }

  lemma GlobalTalks(env: Env, k: Core, p: seq<byte>)
    requires TalkOk(env, k) && Listening(k) && Is(p, 80)
    ensures TalkOk(env, Deliver(env, k, p).k)
  {
    hide TalkOk;
    hide Deliver;
    hide WellSaid;
    hide RAll;
    var (got, end) := RAll(RInit(p[1..]), [NAME, FLAG]);
    var wanted := !end.err && got[1] != IByte(0);
    GlobalAnswered(env, k, p);
    RequestFailure(Remote(k));
    AnswersOk(env, k, p, Heard(k, p), Deliver(env, k, p).k, if wanted then [Message(82, [])] else []);
  }

  lemma RequestFailure(remote: Option<uint32>)
    ensures WellSaid(Message(82, []), remote)
  {
    MessageNone(82);
  }

  lemma RefusalSaid(sender: uint32, reason: uint32, why: string, remote: Option<uint32>)
    requires |why| <= 1000
    ensures var q := OpenRefused(sender, reason, why);
      q != [] && q[0] == 92 && WellSaid(q, remote)
  {
    hide Fields;
    hide Message;
    var items := [IU32(sender), IU32(reason), IStr(Ascii(why)), IStr([])];
    SizeOfThree(items[1], items[2], items[3]);
    assert items[1..] == [items[1], items[2], items[3]];
    MessageFields(92, items, [WORD, WORD, NAME, NAME]);
  }

  lemma RefusedOpenTalks(env: Env, k: Core, p: seq<byte>, r: Ret, sender: uint32, reason: uint32, why: string)
    requires TalkOk(env, k) && !k.state.StClosed? && Is(p, 90) && |why| <= 1000
    requires Answers(env, Heard(k, p), r, [OpenRefused(sender, reason, why)])
    requires k.chan.open || AsksToOpen(p).None?
    ensures TalkOk(env, r.k)
  {
    hide TalkOk;
    hide OpenRefused;
    hide AsksToOpen;
    hide WellSaid;
    RefusalSaid(sender, reason, why, Remote(k));
    AnswersOk(env, k, p, Heard(k, p), r.k, [OpenRefused(sender, reason, why)]);
  }

  lemma ConfirmTalks(env: Env, k: Core, p: seq<byte>, r: Ret)
    requires TalkOk(env, k) && !k.state.StClosed? && Is(p, 90) && !k.chan.open
    requires var got := RAll(RInit(p[1..]), [NAME, WORD, WORD, WORD]).0;
      var sender := Number(got[1]);
      AsksToOpen(p) == Some(sender)
      && Answers(env, Opened(Heard(k, p), sender, Number(got[2]), Number(got[3])), r,
                 [Message(91, [IU32(sender), IU32(0), IU32(32768), IU32(32768)])])
    ensures TalkOk(env, r.k)
  {
    hide TalkOk;
    hide AsksToOpen;
    hide RAll;
    hide Message;
    var got := RAll(RInit(p[1..]), [NAME, WORD, WORD, WORD]).0;
    var sender := Number(got[1]);
    var want := Opened(Heard(k, p), sender, Number(got[2]), Number(got[3]));
    var q := Message(91, [IU32(sender), IU32(0), IU32(32768), IU32(32768)]);
    MessageFour(91, IU32(sender), IU32(0), IU32(32768), IU32(32768));
    AnswersOk(env, k, p, want, r.k, [q]);
  }

  lemma OpenTalks(env: Env, k: Core, p: seq<byte>)
    requires TalkOk(env, k) && Listening(k) && Is(p, 90)
    ensures TalkOk(env, Deliver(env, k, p).k)
  {
    hide TalkOk;
    hide Deliver;
    hide Refuses;
    hide Answers;
    hide OpenRefused;
    hide Message;
    hide RStr;
    hide RU32;
    OpenAnswered(env, k, p);
    var (k1, r) := (Heard(k, p), Deliver(env, k, p));
    var (got, end) := RAll(RInit(p[1..]), [NAME, WORD, WORD, WORD]);
    var sender := Number(got[1]);
    if !k.state.StConn? {
      RefusesOk(env, k, p, k1, r, 2, "channel before auth");
    } else if end.err {
      RefusesOk(env, k, p, k1, r, 2, "bad CHANNEL_OPEN");
    } else if k.chan.open {
      RefusedOpenTalks(env, k, p, r, sender, 4, "only one session per connection");
    } else if got[0] != IStr(Ascii("session")) {
      RefusedOpenTalks(env, k, p, r, sender, 3, "unsupported channel type");
    } else {
      ConfirmTalks(env, k, p, r);
    }
  }

  /** Four packets are a number and the client's channel, nothing more. */
  lemma PlainReply(n: byte, remote: uint32)
    requires n == 96 || n == 97 || n == 99 || n == 100
    ensures var q := Message(n, [IU32(remote)]);
      q != [] && q[0] == n && WellSaid(q, Some(remote))
  {
    hide Fields;
    hide Message;
    var none: seq<Item> := [];
    assert [IU32(remote)][1..] == none && [WORD] + [] == [WORD];
    MessageFields(n, [IU32(remote)], [WORD]);
  }

  lemma RequestTalks(env: Env, k: Core, p: seq<byte>)
    requires TalkOk(env, k) && Listening(k) && Is(p, 98)
    ensures TalkOk(env, Deliver(env, k, p).k)
  {
    hide TalkOk;
    hide Deliver;
    hide Refuses;
    hide Message;
    hide WellSaid;
    hide Granted;
    RequestAnswered(env, k, p);
    var (got, end) := RAll(RInit(p[1..]), [WORD, NAME, FLAG]);
    var (k1, r) := (Heard(k, p), Deliver(env, k, p));
    var (chan, granted) := Granted(k.chan, got[1], end);
    if !k.state.StConn? {
      RefusesOk(env, k, p, k1, r, 2, "channel before auth");
    } else if end.err || got[0] != IU32(0) || !k.chan.open {
      RefusesOk(env, k, p, k1, r, 2, "bad CHANNEL_REQUEST");
    } else {
      GrantedKeeps(k.chan, got[1], end);
      var n := if granted then 99 else 100;
      PlainReply(n, chan.remote);
      AnswersOk(env, k, p, k1.(chan := chan), r.k, if got[2] != IByte(0) then [Message(n, [IU32(chan.remote)])] else []);
    }
  }

  lemma GrantedKeeps(c: Chan, kind: Item, rest: Cursor)
    ensures Granted(c, kind, rest).0.open == c.open && Granted(c, kind, rest).0.remote == c.remote
  {
    hide Ascii;
    hide RAll;
  }

  lemma DataTalks(env: Env, k: Core, p: seq<byte>)
    requires TalkOk(env, k) && Listening(k) && Is(p, 94)
    ensures TalkOk(env, Deliver(env, k, p).k)
  {
    hide TalkOk;
    hide Refuses;
    hide Fail;
    hide RStr;
    hide RU32;
    var (k1, r) := (Heard(k, p), Deliver(env, k, p));
    assert r == OnChannelData(env, k1, p);
    FailRefuses(env, k1, 2, "bad channel");
    FailRefuses(env, k1, 2, "bad CHANNEL_DATA");
    if Refuses(env, k1, r, 2, "bad channel") {
      RefusesOk(env, k, p, k1, r, 2, "bad channel");
    } else if Refuses(env, k1, r, 2, "bad CHANNEL_DATA") {
      RefusesOk(env, k, p, k1, r, 2, "bad CHANNEL_DATA");
    } else {
      QuietOk(env, k, p, r.k);
    }
  }

  lemma CloseTalks(env: Env, k: Core, p: seq<byte>)
    requires TalkOk(env, k) && Listening(k) && Is(p, 97)
    ensures TalkOk(env, Deliver(env, k, p).k)
  {
    hide TalkOk;
    hide Deliver;
    hide Message;
    hide WellSaid;
    CloseAnswered(env, k, p);
    PlainReply(97, k.chan.remote);
    var first := k.chan.open && !k.chan.closeSent;
    var want := Heard(k, p).(chan := k.chan.(closeRecv := true, closeSent := k.chan.closeSent || first));
    AnswersOk(env, k, p, want, Deliver(env, k, p).k, if first then [Message(97, [IU32(k.chan.remote)])] else []);
  }

  lemma OtherTalks(env: Env, k: Core, p: seq<byte>)
    requires TalkOk(env, k) && Listening(k) && p != [] && p[0] !in KNOWN && !(k.ignoreNext && 30 <= p[0] <= 49)
    ensures TalkOk(env, Deliver(env, k, p).k)
  {
    hide TalkOk;
    hide Deliver;
    hide Fields;
    hide Message;
    OtherAnswered(env, k, p);
    var number := (k.inDir.seqNo - 1) % 0x1_0000_0000;
    var none: seq<Item> := [];
    assert [IU32(number)][1..] == none;
    MessageFields(3, [IU32(number)], [WORD]);
    AnswersOk(env, k, p, Heard(k, p), Deliver(env, k, p).k, [Message(3, [IU32(number)])]);
  }

  // ---- every payload ----

  lemma KexTalks(env: Env, k: Core, p: seq<byte>)
    requires TalkOk(env, k) && Listening(k) && p != [] && p[0] in {20, 21, 30} && !GuessDropped(k, p[0])
    ensures TalkOk(env, Deliver(env, k, p).k)
  {
    hide TalkOk;
    hide OnKexInit;
    hide OnKexDhInit;
    hide OnNewKeys;
    hide Mutters;
    var k1 := Heard(k, p);
    if p[0] == 20 {
      assert Deliver(env, k, p) == OnKexInit(env, k1, p);
      KexInitMutters(env, k1, p);
    } else if p[0] == 30 {
      assert Deliver(env, k, p) == OnKexDhInit(env, k1, p);
      KexDhInitMutters(env, k1, p);
    } else {
      assert Deliver(env, k, p) == OnNewKeys(env, k1);
      NewKeysMutters(env, k1);
    }
    MutterOk(env, k, p, Deliver(env, k, p).k);
  }

  lemma EndTalks(env: Env, k: Core, p: seq<byte>)
    requires TalkOk(env, k) && Listening(k) && (p == [] || p[0] == 1 || GuessDropped(k, p[0]))
    ensures TalkOk(env, Deliver(env, k, p).k)
  {
    hide TalkOk;
    hide Refuses;
    Ended(env, k, p);
    if p == [] {
      RefusesOk(env, k, p, Heard(k, p), Deliver(env, k, p), 2, "empty payload");
    } else {
      QuietOk(env, k, p, Deliver(env, k, p).k);
    }
  }

  lemma QuietTalks(env: Env, k: Core, p: seq<byte>)
    requires TalkOk(env, k) && Listening(k) && p != [] && p[0] in {2, 3, 4, 7, 93, 95, 96}
    ensures TalkOk(env, Deliver(env, k, p).k)
  {
    hide TalkOk;
    hide Deliver;
    if p[0] == 93 {
      AdjustAnswered(env, k, p);
    } else {
      NothingAnswered(env, k, p);
    }
    QuietOk(env, k, p, Deliver(env, k, p).k);
  }

  lemma DeliverTalks(env: Env, k: Core, p: seq<byte>)
    requires TalkOk(env, k) && Listening(k)
    ensures TalkOk(env, Deliver(env, k, p).k)
  {
    hide TalkOk;
    hide Deliver;
    if p == [] || p[0] == 1 || GuessDropped(k, p[0]) {
      EndTalks(env, k, p);
    } else if p[0] !in KNOWN {
      OtherTalks(env, k, p);
    } else if p[0] in {20, 21, 30} {
      KexTalks(env, k, p);
    } else if p[0] in {2, 3, 4, 7, 93, 95, 96} {
      QuietTalks(env, k, p);
    } else {
      ServiceHalfTalks(env, k, p);
    }
  }

  lemma ServiceHalfTalks(env: Env, k: Core, p: seq<byte>)
    requires TalkOk(env, k) && Listening(k) && p != [] && p[0] in {5, 50, 80, 90, 94, 97, 98}
    ensures TalkOk(env, Deliver(env, k, p).k)
  {
    hide TalkOk;
    hide Deliver;
    if p[0] == 5 {
      ServiceTalks(env, k, p);
    } else if p[0] == 50 {
      AuthTalks(env, k, p);
    } else if p[0] == 80 {
      GlobalTalks(env, k, p);
    } else if p[0] == 90 {
      OpenTalks(env, k, p);
    } else if p[0] == 94 {
      DataTalks(env, k, p);
    } else if p[0] == 97 {
      CloseTalks(env, k, p);
    } else {
      RequestTalks(env, k, p);
    }
  }

  // ---- calls ----

  /** A call says what it says to the same channel, and hears nothing. */
  lemma CallTalks(env: Env, k: Core, k': Core, ps: seq<seq<byte>>)
    requires TalkOk(env, k) && Adds(k, k', ps) && AllWellSaid(ps, Remote(k)) && CountOf(ps, 52) == 0 && CountOf(ps, 6) == 0
    requires k'.chan.open == k.chan.open && k'.chan.remote == k.chan.remote && (k.state.StClosed? ==> k'.state.StClosed?)
    requires k'.hist.auths == k.hist.auths && k'.hist.handled == k.hist.handled && (Draws(env, k) ==> Draws(env, k'))
    ensures TalkOk(env, k')
  {
    hide AllWellSaid;
    hide Drawn;
    SaidMore(k, k', ps);
    CountAdds(Said(k.hist.sent), ps, 6);
  }

  lemma SendTalks(env: Env, k: Core, p: seq<byte>)
    requires TalkOk(env, k) && !k.state.StClosed? && 1 <= |p| <= MAX_PAYLOAD && WellSaid(p, Remote(k)) && p[0] != 52 && p[0] != 6 && Lead(p) == 0
    ensures TalkOk(env, SendPacket(env, k, p).k)
  {
    hide TalkOk;
    hide SendPacket;
    hide WellSaid;
    hide AllWellSaid;
    SendAnswers(env, k, p);
    One(p, Remote(k));
    CallTalks(env, k, SendPacket(env, k, p).k, [p]);
  }

  /** What the dialogue does not look at. */
  lemma Unseen(env: Env, k: Core, k': Core)
    requires TalkOk(env, k) && (k.state.StClosed? ==> k'.state.StClosed?)
    requires k'.chan.open == k.chan.open && k'.chan.remote == k.chan.remote && k'.hist.auths == k.hist.auths
    requires k'.hist.handled == k.hist.handled && k'.hist.sent == k.hist.sent && k'.drawn == k.drawn
    ensures TalkOk(env, k')
  {
    hide AllWellSaid;
    hide Drawn;
  }

  lemma AdjustSaid(k: Core)
    requires k.chan.open
    ensures WellSaid(WindowAdjustMsg(k), Remote(k)) && |WindowAdjustMsg(k)| == 9 && WindowAdjustMsg(k)[0] == 93
  {
    hide Fields;
    hide Message;
    AdjustMsg(k);
    assert [WORD] + [WORD] == [WORD, WORD];
  }

  lemma DataSaid(k: Core, d: seq<byte>)
    requires k.chan.open && |d| <= DATA_CHUNK
    ensures WellSaid(DataMsg(k, d), Remote(k)) && |DataMsg(k, d)| == 9 + |d| && DataMsg(k, d)[0] == 94
  {
    hide Fields;
    hide Message;
    DataMsgShape(k, d);
    assert [WORD] + [NAME] == [WORD, NAME];
  }

  lemma ReadTalks(env: Env, k: Core, max: nat)
    requires TalkOk(env, k)
    ensures TalkOk(env, ReadRing(env, k, max))
  {
    hide TalkOk;
    hide SendPacket;
    hide WellSaid;
    hide WindowAdjustMsg;
    if k.ring != [] {
      var k1 := TakeRing(k, Taken(k, max));
      Unseen(env, k, k1);
      if k1.consumed >= LOCAL_WINDOW / 2 && CanSendNow(k1) {
        AdjustSaid(k1);
        SendTalks(env, k1, WindowAdjustMsg(k1));
        var r := SendPacket(env, k1, WindowAdjustMsg(k1));
        Unseen(env, r.k, r.k.(consumed := 0));
      }
    }
  }

  lemma WriteTalks(env: Env, k: Core, buf: seq<byte>)
    requires TalkOk(env, k)
    ensures TalkOk(env, WriteChunk(env, k, buf).k)
  {
    hide TalkOk;
    hide SendPacket;
    hide WellSaid;
    hide DataMsg;
    if MayWrite(k) {
      var n := ChunkLen(k, |buf|);
      DataSaid(k, buf[..n]);
      SendTalks(env, k, DataMsg(k, buf[..n]));
      var r := SendPacket(env, k, DataMsg(k, buf[..n]));
      if r.ok {
        Unseen(env, r.k, r.k.(chan := r.k.chan.(window := r.k.chan.window - n)));
      }
    }
  }

  function ExitStatus(k: Core, status: uint32): seq<byte> {
    Message(98, [IU32(k.chan.remote), IStr(Ascii("exit-status")), IByte(0), IU32(status)])
  }

  lemma StatusSaid(k: Core, status: uint32)
    requires k.chan.open
    ensures var q := ExitStatus(k, status);
      && WellSaid(q, Remote(k)) && 1 <= |q| <= MAX_PAYLOAD && q[0] == 98
      && q == [MSG_CHANNEL_REQUEST] + PutU32(k.chan.remote) + Str(Ascii("exit-status")) + [0] + PutU32(status)
  {
    hide Fields;
    hide Encoded;
    var items := [IU32(k.chan.remote), IStr(Ascii("exit-status")), IByte(0), IU32(status)];
    MessageFour(98, items[0], items[1], items[2], items[3]);
    SizeOfThree(items[1], items[2], items[3]);
    assert items[1..] == [items[1], items[2], items[3]];
    assert [WORD] + [NAME, FLAG, WORD] == [WORD, NAME, FLAG, WORD];
    MessageFields(98, items, [WORD, NAME, FLAG, WORD]);
  }

  lemma ReplyTalks(env: Env, k: Core, n: byte)
    requires TalkOk(env, k) && k.chan.open && (n == 96 || n == 97)
    ensures TalkOk(env, SendChannelReply(env, k, n).k) && SendChannelReply(env, k, n).k.chan == k.chan
  {
    hide TalkOk;
    hide WellSaid;
    MessageOne(n, IU32(k.chan.remote));
    PlainReply(n, k.chan.remote);
    if !k.state.StClosed? {
      hide SendPacket;
      SendTalks(env, k, [n] + PutU32(k.chan.remote));
    }
  }

  lemma CloseCallTalks(env: Env, k: Core, status: uint32)
    requires TalkOk(env, k)
    ensures TalkOk(env, CloseChannel(env, k, status))
  {
    hide TalkOk;
    hide SendPacket;
    hide SendChannelReply;
    hide WellSaid;
    hide PutU32;
    if ClosesChannel(k) {
      StatusSaid(k, status);
      SendTalks(env, k, ExitStatus(k, status));
      var k1 := SendPacket(env, k, ExitStatus(k, status)).k;
      ReplyTalks(env, k1, 96);
      var k2 := SendChannelReply(env, k1, 96).k;
      ReplyTalks(env, k2, 97);
      var k3 := SendChannelReply(env, k2, 97).k;
      Unseen(env, k3, k3.(chan := k3.chan.(closeSent := true)));
    }
  }

  lemma DisconnectTalks(env: Env, k: Core, reason: uint32, why: string)
    requires TalkOk(env, k) && |why| <= 1000
    ensures TalkOk(env, Disconnect(env, k, reason, why))
  {
    hide TalkOk;
    hide SendPacket;
    hide OffChannel;
    hide OnChannel;
    if !k.state.StClosed? {
      var p := DisconnectMsg(reason, why);
      ReasonTalk(reason, why);
      SendTalks(env, k, p);
      Unseen(env, SendPacket(env, k, p).k, SendPacket(env, k, p).k.(state := StClosed));
    }
  }

  // ---- every run ----

  lemma PacketTalks(env: Env, c: Conn)
    requires ConnOk(c) && TalkOk(env, c.core) && Listening(c.core)
    ensures TalkOk(env, Packet(env, c).0.core)
  {
    hide TalkOk;
    hide RxStep;
    hide Deliver;
    hide Disconnect;
    var (x, res) := RxStep(env, RxOf(c));
    var k1 := c.core.(inDir := x.dir);
    Unseen(env, c.core, k1);
    DisconnectTalks(env, k1, DISC_PROTOCOL_ERROR, "bad packet length");
    DisconnectTalks(env, k1, DISC_MAC_ERROR, "MAC mismatch");
    DisconnectTalks(env, k1, DISC_PROTOCOL_ERROR, "bad padding");
    if res.Got? {
      DeliverTalks(env, k1, res.payload);
    }
  }

  lemma VersionTalks(env: Env, c: Conn)
    requires ConnOk(c) && TalkOk(env, c.core) && c.core.state.StVersion?
    ensures TalkOk(env, VersionLine(env, c).0.core)
  {
    hide TalkOk;
    hide SendKexInit;
    hide Disconnect;
    hide LfAt;
    hide Mutters;
    DisconnectTalks(env, c.core, DISC_PROTOCOL_ERROR, "version line too long");
    DisconnectTalks(env, c.core, DISC_PROTOCOL_ERROR, "only SSH 2.0 is supported");
    var i := LfAt(c.buf, 0);
    if i < |c.buf| {
      var k1 := c.core.(version := LineOf(c.buf, i), state := StKex, kex := KxWaitKexInit);
      Unseen(env, c.core, k1);
      InitMutters(env, k1);
      MutterCall(env, k1, SendKexInit(env, k1).k);
    }
  }

  lemma MutterCall(env: Env, k: Core, k': Core)
    requires TalkOk(env, k) && Mutters(env, k, k') && !k.state.StClosed?
    ensures TalkOk(env, k')
  {
    hide TalkOk;
    hide KexTalk;
    hide AllWellSaid;
    var ps := Muttered(env, k, k');
    CallTalks(env, k, k', ps);
  }

  lemma {:induction false} DrainTalks(env: Env, c: Conn)
    requires ConnOk(c) && TalkOk(env, c.core)
    ensures TalkOk(env, Drain(env, c).core)
    decreases |c.buf|
  {
    hide TalkOk;
    hide VersionLine;
    hide Packet;
    DrainStep(env, c);
    if c.core.state.StVersion? {
      VersionTalks(env, c);
    } else if !c.core.state.StClosed? {
      PacketTalks(env, c);
    }
    var (c1, r) := TryOne(env, c);
    if r == 1 {
      DrainTalks(env, c1);
    }
  }

  lemma ApplyTalks(env: Env, c: Conn, e: Event)
    requires ConnOk(c) && TalkOk(env, c.core)
    ensures TalkOk(env, Apply(env, c, e).core)
  {
    hide TalkOk;
    hide Drain;
    hide ReadRing;
    hide WriteChunk;
    hide CloseChannel;
    hide Disconnect;
    match e
    case Input(d) => DrainTalks(env, c.(buf := c.buf + d));
    case TransportLost => Unseen(env, c.core, c.core.(state := StClosed));
    case VersionOut => Unseen(env, c.core, SendVersion(env, c.core));
    case ReadCall(max) => ReadTalks(env, c.core, max);
    case WriteCall(d) => WriteTalks(env, c.core, d);
    case CloseCall(s) => CloseCallTalks(env, c.core, s);
    case GiveUp(timeout) => DisconnectTalks(env, c.core, DISC_BY_APPLICATION, GiveUpNote(timeout));
  }

  lemma FreshTalk(env: Env)
    ensures TalkOk(env, INIT)
  {
  }

  lemma {:induction false} RunTalks(env: Env, events: seq<Event>)
    ensures TalkOk(env, Run(env, events).core)
    decreases |events|
  {
    hide TalkOk;
    hide Apply;
    if events == [] {
      FreshTalk(env);
    } else {
      RunTalks(env, events[..|events| - 1]);
      ApplyTalks(env, Run(env, events[..|events| - 1]), events[|events| - 1]);
    }
  }

  // ---- the promises ----

  /** In every run every packet is one of the server's eighteen kinds and reads back as exactly its fields; what belongs to a
      channel is addressed to the number the client gave when it first asked for a session channel. */
  lemma EveryPacket(env: Env, events: seq<Event>, i: nat)
    requires i < |Run(env, events).core.hist.sent|
    ensures var (h, p) := (Run(env, events).core.hist, Run(env, events).core.hist.sent[i].payload);
      p != [] && (OffChannel(p) || (FirstOpen(h.handled).Some? && OnChannel(p, FirstOpen(h.handled).value)))
  {
    hide Run;
    hide OffChannel;
    hide OnChannel;
    RunTalks(env, events);
    var k := Run(env, events).core;
    assert Said(k.hist.sent)[i] == k.hist.sent[i].payload;
    assert WellSaid(Said(k.hist.sent)[i], Remote(k));
  }

  /** The first thing in it is the client's number for the channel. */
  lemma Addressed(p: seq<byte>, remote: uint32)
    requires p != [] && OnChannel(p, remote)
    ensures RU32(RInit(p[1..])) == (remote, Cursor(p[1..], 4, false))
  {
    hide Message;
    hide RAll;
    if p[0] == 91 {
      var items := [IU32(remote), IU32(0), IU32(32768), IU32(32768)];
      SizeOfThree(items[1], items[2], items[3]);
      assert items[1..] == [items[1], items[2], items[3]];
      MessageFields(91, items, [WORD, WORD, WORD, WORD]);
      assert [WORD] + [WORD, WORD, WORD] == [WORD, WORD, WORD, WORD];
      FirstField(p, [WORD, WORD, WORD], remote);
    } else if p[0] == 93 {
      FirstField(p, [WORD], remote);
    } else if p[0] == 94 {
      FirstField(p, [NAME], remote);
    } else if p[0] == 98 {
      FirstField(p, [NAME, FLAG, WORD], remote);
    } else {
      FirstField(p, [], remote);
    }
  }

  lemma FirstField(p: seq<byte>, rest: seq<Item>, remote: uint32)
    requires p != [] && To(p, rest, remote)
    ensures RU32(RInit(p[1..])) == (remote, Cursor(p[1..], 4, false))
  {
    ReadNext(RInit(p[1..]), WORD, rest);
    if RItem(RInit(p[1..]), WORD).1.err {
      ErrorsStick(RItem(RInit(p[1..]), WORD).1, rest);
    }
  }

  lemma {:induction false} ErrorsStick(r: Cursor, like: seq<Item>)
    requires r.err
    ensures RAll(r, like).1.err
    decreases |like|
  {
    if like != [] {
      ErrorsStick(RItem(r, like[0]).1, like[1..]);
    }
  }

  /** In every run USERAUTH_SUCCESS has been sent as often as the callback has consented, at most once, and not at all before;
      SERVICE_ACCEPT as often as the login service has been asked for, except by a request that ends the connection. */
  lemma Confirmations(env: Env, events: seq<Event>)
    ensures var k := Run(env, events).core;
      var said := Said(k.hist.sent);
      && CountOf(said, 52) == Yes(k.hist.auths) == (if k.login.authenticated then 1 else 0)
      && CountOf(said, 6) <= Requests(k.hist.handled)
      && (!k.state.StClosed? ==> CountOf(said, 6) == Requests(k.hist.handled))
  {
    hide Run;
    hide AllWellSaid;
    hide K.KexInv;
    hide OutOk;
    hide InflowInv;
    hide OutflowInv;
    RunTalks(env, events);
    RunOk(env, events);
  }

  /** What channel data packets with this recipient carry: all that the client's channel gets. */
  function DataTo(s: seq<Sent>, remote: Option<uint32>): seq<byte> {
    if s == [] then [] else DataTo(s[..|s| - 1], remote) + StringFor(s[|s| - 1].payload, remote)
  }

  function StringFor(p: seq<byte>, remote: Option<uint32>): seq<byte> {
    var f := Fields(p, [WORD, NAME]);
    if Is(p, 94) && f.Some? && remote.Some? && f.value[0] == IU32(remote.value) then Text(f.value[1]) else []
  }

  lemma StringIs(p: seq<byte>, remote: Option<uint32>)
    requires WellSaid(p, remote)
    ensures StringFor(p, remote) == if Is(p, 94) then DataIn(p) else []
  {
    hide Fields;
    hide Message;
    assert [WORD] + [NAME] == [WORD, NAME];
  }

  /** Everything the server has sent as data has gone to the one channel. */
  lemma {:induction false} AllDataTo(s: seq<Sent>, remote: Option<uint32>)
    requires AllWellSaid(Said(s), remote)
    ensures DataTo(s, remote) == TraceOf(s).data
    decreases |s|
  {
    hide WellSaid;
    hide StringFor;
    hide DataIn;
    if s != [] {
      var init := s[..|s| - 1];
      forall i | 0 <= i < |init|
        ensures WellSaid(Said(init)[i], remote)
      {
        assert Said(init)[i] == Said(s)[i];
      }
      AllDataTo(init, remote);
      assert Said(s)[|s| - 1] == s[|s| - 1].payload;
      StringIs(s[|s| - 1].payload, remote);
    }
  }

  lemma DataReaches(env: Env, events: seq<Event>)
    ensures var k := Run(env, events).core;
      DataTo(k.hist.sent, Remote(k)) == TraceOf(k.hist.sent).data
  {
    hide Run;
    hide AllWellSaid;
    hide HeardOk;
    RunTalks(env, events);
    AllDataTo(Run(env, events).core.hist.sent, Remote(Run(env, events).core));
  }

  /** In every run every cookie, every private key of a key exchange and every packet's padding is the generator's next output,
      and no byte of it is used twice: what the later of two packets uses lies behind what the earlier used. */
  lemma NothingDrawnTwice(env: Env, events: seq<Event>, i: nat, j: nat)
    requires i < j < |Run(env, events).core.hist.sent|
    ensures var s := Run(env, events).core.hist.sent;
      && Genuine(env, s, i) && Genuine(env, s, j)
      && s[i].at + |s[i].pad| + Lead(s[j].payload) <= s[j].at
      && s[j].at + |s[j].pad| <= Run(env, events).core.drawn
  {
    hide Run;
    hide SaidOk;
    hide HeardOk;
    hide Genuine;
    RunTalks(env, events);
    var k := Run(env, events).core;
    Apart(env, k.hist.sent, k.drawn, i, j);
    LastDrawn(env, k.hist.sent, k.drawn, j);
  }
}
