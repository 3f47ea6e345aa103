/** What a handler may touch. Every packet that HandlePacket gets is handled either by the transport half, which
    leaves authentication and the channel alone, or by the service half, which leaves the key exchange alone. */
module SessionFrames {
  import opened Bytes
  import opened Wire
  import opened Environment
  import opened RecordLayer
  import opened Session

  // ---- digests of the two packet logs ----

  /** What the packets sent so far amount to. */
  datatype Trace = Trace(inits: nat, newKeys: nat, open: bool, disciplined: bool, lastInit: seq<byte>,
                         adjusts: nat, data: seq<byte>)

  predicate Is(p: seq<byte>, m: byte) {
    p != [] && p[0] == m
  }

  /** The number a window adjust gives back: a channel, a number, nothing behind. */
  function AdjustIn(p: seq<byte>): nat {
    var f := Fields(p, [WORD, WORD]);
    if f.Some? && f.value[1].IU32? then f.value[1].n else 0
  }

  /** What channel data carries: a channel, a string, nothing behind. */
  function DataIn(p: seq<byte>): seq<byte> {
    var f := Fields(p, [WORD, NAME]);
    if f.Some? && f.value[1].IStr? then f.value[1].s else []
  }

  /** A key exchange is open from the server's KEXINIT to its NEWKEYS; the log is disciplined as long as no channel
      data and no window adjust has gone out while one was. */
  function Note(t: Trace, p: seq<byte>): Trace {
    if Is(p, MSG_KEXINIT) then t.(inits := t.inits + 1, open := true, lastInit := p)
    else if Is(p, MSG_NEWKEYS) then t.(newKeys := t.newKeys + 1, open := false)
    else if Is(p, MSG_WINDOW_ADJUST) then t.(adjusts := t.adjusts + AdjustIn(p), disciplined := t.disciplined && !t.open)
    else if Is(p, MSG_CHANNEL_DATA) then t.(data := t.data + DataIn(p), disciplined := t.disciplined && !t.open)
    else t
  }

  const NO_TRACE := Trace(0, 0, false, true, [], 0, [])

  function TraceOf(s: seq<Sent>): Trace {
    if s == [] then NO_TRACE else Note(TraceOf(s[..|s| - 1]), s[|s| - 1].payload)
  }

  /** What the packets received so far amount to. */
  datatype Seen = Seen(inits: nat, newKeys: nat, lastInit: seq<byte>)

  function See(t: Seen, p: seq<byte>): Seen {
    if Is(p, MSG_KEXINIT) then t.(inits := t.inits + 1, lastInit := p)
    else if Is(p, MSG_NEWKEYS) then t.(newKeys := t.newKeys + 1)
    else t
  }

  function SeenOf(h: seq<seq<byte>>): Seen {
    if h == [] then Seen(0, 0, []) else See(SeenOf(h[..|h| - 1]), h[|h| - 1])
  }

  lemma TraceSnoc(s: seq<Sent>, x: Sent)
    ensures TraceOf(s + [x]) == Note(TraceOf(s), x.payload)
  {
    assert (s + [x])[..|s|] == s;
  }

  lemma SeenSnoc(h: seq<seq<byte>>, p: seq<byte>)
    ensures SeenOf(h + [p]) == See(SeenOf(h), p)
  {
    assert (h + [p])[..|h|] == h;
  }

  // ---- the sender's log against the wire ----

  function MsgsOf(s: seq<Sent>): (m: seq<Msg>)
    ensures |m| == |s|
    ensures forall i :: 0 <= i < |s| ==> m[i] == Msg(s[i].payload, s[i].pad)
  {
    if s == [] then [] else MsgsOf(s[..|s| - 1]) + [Msg(s[|s| - 1].payload, s[|s| - 1].pad)]
  }

  function WireOf(s: seq<Sent>): seq<byte> {
    if s == [] then [] else WireOf(s[..|s| - 1]) + s[|s| - 1].wire
  }

  ghost predicate Chain(env: Env, s: seq<Sent>, keys: seq<Keys>, d: Dir) {
    && SealAll(env, CLEAR, MsgsOf(s), keys) == Sealed(WireOf(s), d, [])
    && AllSendable(CLEAR, MsgsOf(s), keys)
    && Ledger(env, s, keys, d)
  }

  /** How many bytes of records have gone out under the keys of one epoch; none are encrypted before the first. */
  function BytesUnder(s: seq<Sent>, epoch: nat): nat {
    if s == [] || epoch == 0 then 0
    else
      var x := s[|s| - 1];
      BytesUnder(s[..|s| - 1], epoch) + if x.epoch == epoch then 5 + |x.payload| + |x.pad| else 0
  }

  /** The direction after these packets: the keys of its epoch, the bytes under them, and one number for each packet. */
  function DirAfter(s: seq<Sent>, keys: seq<Keys>, epoch: nat): Dir
    requires epoch <= |keys|
  {
    Dir(epoch > 0, if epoch > 0 then keys[epoch - 1] else CLEAR.keys, BytesUnder(s, epoch), Low32(|s|), epoch)
  }

  /** Every packet is the record of its own payload under the direction that all packets before it have led to. */
  ghost predicate Ledger(env: Env, s: seq<Sent>, keys: seq<Keys>, d: Dir) {
    && d == DirAfter(s, keys, |keys|)
    && (forall j :: 0 <= j < |s| ==> s[j].epoch <= |keys|)
    && forall j :: 0 <= j < |s| ==> IsEntry(env, s[j], DirAfter(s[..j], keys, s[j].epoch))
  }

  ghost predicate IsEntry(env: Env, x: Sent, d: Dir) {
    Sendable(d, x.payload, x.pad) && x.wire == Seal(env, d, x.payload, x.pad)
  }

  lemma {:induction false} NothingUnder(s: seq<Sent>, epoch: nat)
    requires forall j :: 0 <= j < |s| ==> s[j].epoch < epoch
    ensures BytesUnder(s, epoch) == 0
    decreases |s|
  {
    if s != [] {
      NothingUnder(s[..|s| - 1], epoch);
    }
  }

  lemma LedgerSnoc(env: Env, s: seq<Sent>, keys: seq<Keys>, d: Dir, x: Sent)
    requires Ledger(env, s, keys, d) && IsEntry(env, x, d) && x.epoch == d.epoch
    ensures Ledger(env, s + [x], keys, AfterSeal(d, x.payload, x.pad))
  {
    hide IsEntry;
    var t := s + [x];
    assert t[..|t| - 1] == s;
    forall j | 0 <= j < |t|
      ensures IsEntry(env, t[j], DirAfter(t[..j], keys, t[j].epoch))
    {
      assert t[..j] == s[..j];
      assert j == |s| ==> s[..j] == s;
    }
    NextNumber(|s|);
  }

  lemma NextNumber(n: nat)
    ensures Low32(Low32(n) + 1) == Low32(n + 1)
  {
  }

  lemma LedgerSwitch(env: Env, s: seq<Sent>, keys: seq<Keys>, d: Dir, k: Keys)
    requires Ledger(env, s, keys, d)
    ensures Ledger(env, s, keys + [k], Install(d, k))
  {
    hide IsEntry;
    NothingUnder(s, |keys| + 1);
    forall j | 0 <= j < |s|
      ensures IsEntry(env, s[j], DirAfter(s[..j], keys + [k], s[j].epoch))
    {
      assert IsEntry(env, s[j], DirAfter(s[..j], keys, s[j].epoch));
    }
  }

  /** Every packet is under the keys of the last NEWKEYS before it. */
  ghost predicate EpochsOk(s: seq<Sent>) {
    forall i :: 0 <= i < |s| ==> s[i].epoch == CountNewKeys(MsgsOf(s[..i]))
  }

  /** Everything sent so far is one run of the record layer's sender, ending in the current outgoing direction. */
  ghost predicate OutOk(env: Env, k: Core) {
    && Chain(env, k.hist.sent, k.hist.outKeys, k.outDir)
    && EpochsOk(k.hist.sent)
    && (!k.state.StClosed? ==> CountNewKeys(MsgsOf(k.hist.sent)) == |k.hist.outKeys|)
  }

  lemma OutSnoc(s: seq<Sent>, x: Sent)
    ensures MsgsOf(s + [x]) == MsgsOf(s) + [Msg(x.payload, x.pad)]
    ensures WireOf(s + [x]) == WireOf(s) + x.wire
  {
    assert (s + [x])[..|s|] == s;
  }

  // ---- one packet sent ----

  /** Apart from the packet itself, sending changes only where the generator, the cipher and the sequence number are. */
  predicate SentOne(k: Core, k': Core, payload: seq<byte>) {
    && |k'.hist.sent| == |k.hist.sent| + 1
    && k'.hist.sent[..|k.hist.sent|] == k.hist.sent
    && k'.hist.sent[|k.hist.sent|].payload == payload
    && k'.hist.sent[|k.hist.sent|].epoch == k.outDir.epoch
    && k' == k.(state := k'.state, drawn := k'.drawn, writes := k'.writes,
                outDir := k.outDir.(pos := k'.outDir.pos, seqNo := k'.outDir.seqNo),
                hist := k.hist.(sent := k'.hist.sent))
    && TraceOf(k'.hist.sent) == Note(TraceOf(k.hist.sent), payload)
  }

  lemma Send(env: Env, k: Core, payload: seq<byte>)
    requires !k.state.StClosed? && 1 <= |payload| <= MAX_PAYLOAD
    ensures var r := SendPacket(env, k, payload);
      SentOne(k, r.k, payload) && r.k.state == if r.ok then k.state else StClosed
  {
    hide PadLen;
    hide Seal;
    var r := SendPacket(env, k, payload);
    var x := r.k.hist.sent[|k.hist.sent|];
    assert r.k.hist.sent == k.hist.sent + [x];
    TraceSnoc(k.hist.sent, x);
  }

  lemma {:induction false} EpochOf(env: Env, d: Dir, msgs: seq<Msg>, keys: seq<Keys>)
    ensures var r := SealAll(env, d, msgs, keys);
      r.dir.epoch + |r.keys| == d.epoch + |keys|
    decreases |msgs|
  {
    hide Seal;
    if msgs != [] {
      var (d1, keys1) := Switch(AfterSeal(d, msgs[0].payload, msgs[0].pad), msgs[0].payload, keys);
      EpochOf(env, d1, msgs[1..], keys1);
    }
  }

  lemma EpochsSnoc(s: seq<Sent>, x: Sent)
    requires EpochsOk(s) && x.epoch == CountNewKeys(MsgsOf(s))
    ensures EpochsOk(s + [x])
  {
    hide MsgsOf;
    hide CountNewKeys;
    forall i | 0 <= i < |s + [x]|
      ensures (s + [x])[i].epoch == CountNewKeys(MsgsOf((s + [x])[..i]))
    {
      assert (s + [x])[..i] == s[..i];
      assert s[..|s|] == s;
    }
  }

  lemma OutEpoch(env: Env, k: Core)
    requires OutOk(env, k) && !k.state.StClosed?
    ensures k.outDir.epoch == CountNewKeys(MsgsOf(k.hist.sent))
  {
    hide EpochsOk;
    EpochOf(env, CLEAR, MsgsOf(k.hist.sent), k.hist.outKeys);
  }

  lemma ChainSnoc(env: Env, s: seq<Sent>, keys: seq<Keys>, d: Dir, x: Sent)
    requires Chain(env, s, keys, d) && x.epoch == d.epoch
    requires Sendable(d, x.payload, x.pad) && x.wire == Seal(env, d, x.payload, x.pad)
    ensures Chain(env, s + [x], keys, AfterSeal(d, x.payload, x.pad))
    ensures CountNewKeys(MsgsOf(s + [x])) == CountNewKeys(MsgsOf(s)) + if IsNewKeys(x.payload) then 1 else 0
  {
    LedgerSnoc(env, s, keys, d, x);
    hide Ledger;
    hide Seal;
    hide Sendable;
    hide AfterSeal;
    OutSnoc(s, x);
    var m := Msg(x.payload, x.pad);
    SealAllAppend(env, CLEAR, MsgsOf(s), [m], keys);
    CountNewKeysAppend(MsgsOf(s), [m]);
    assert [m][1..] == [] && SealAll(env, AfterSeal(d, x.payload, x.pad), [m][1..], []).bytes == [];
    assert x.wire + [] == x.wire;
  }

  lemma ChainSwitch(env: Env, s: seq<Sent>, keys: seq<Keys>, d: Dir, x: Sent, k: Keys)
    requires Chain(env, s, keys, d) && CountNewKeys(MsgsOf(s)) == |keys| && x.epoch == d.epoch
    requires Sendable(d, x.payload, x.pad) && x.wire == Seal(env, d, x.payload, x.pad) && IsNewKeys(x.payload)
    ensures Chain(env, s + [x], keys + [k], Install(AfterSeal(d, x.payload, x.pad), k))
  {
    LedgerSnoc(env, s, keys, d, x);
    LedgerSwitch(env, s + [x], keys, AfterSeal(d, x.payload, x.pad), k);
    hide Ledger;
    hide Seal;
    hide Sendable;
    hide AfterSeal;
    hide Install;
    OutSnoc(s, x);
    var m := Msg(x.payload, x.pad);
    SealAllMoreKeys(env, CLEAR, MsgsOf(s), keys, [k]);
    SealAllAppend(env, CLEAR, MsgsOf(s), [m], keys + [k]);
    assert [m][1..] == [] && [k][1..] == [];
    assert x.wire + [] == x.wire;
  }

  lemma SentIs(env: Env, k: Core, payload: seq<byte>)
    requires !k.state.StClosed? && 1 <= |payload| <= MAX_PAYLOAD
    ensures var r, pad := SendPacket(env, k, payload), Random(env, k.drawn, PadLen(k.outDir, |payload|));
      && Sendable(k.outDir, payload, pad)
      && r.k.hist.sent == k.hist.sent + [Sent(payload, pad, k.drawn, Seal(env, k.outDir, payload, pad), k.outDir.epoch)]
      && r.k.outDir == AfterSeal(k.outDir, payload, pad) && r.k.hist.outKeys == k.hist.outKeys
      && r.k.state == if r.ok then k.state else StClosed
  {
    hide Seal;
    hide AfterSeal;
    hide Sendable;
    hide PadLen;
    PaddedIsSendable(k.outDir, payload, Random(env, k.drawn, PadLen(k.outDir, |payload|)));
  }

  lemma SendOut(env: Env, k: Core, payload: seq<byte>)
    requires OutOk(env, k) && !k.state.StClosed? && 1 <= |payload| <= MAX_PAYLOAD
    ensures var r := SendPacket(env, k, payload);
      && (!IsNewKeys(payload) || r.k.state.StClosed? ==> OutOk(env, r.k))
      && OutOk(env, r.k.(state := StClosed))
  {
    hide SendPacket;
    hide Seal;
    hide AfterSeal;
    hide Sendable;
    hide Chain;
    hide EpochsOk;
    OutEpoch(env, k);
    SentIs(env, k, payload);
    var pad := Random(env, k.drawn, PadLen(k.outDir, |payload|));
    EpochsSnoc(k.hist.sent, Sent(payload, pad, k.drawn, Seal(env, k.outDir, payload, pad), k.outDir.epoch));
    ChainSnoc(env, k.hist.sent, k.hist.outKeys, k.outDir,
      Sent(payload, pad, k.drawn, Seal(env, k.outDir, payload, pad), k.outDir.epoch));
  }

  lemma SwitchOk(env: Env, k: Core, outKeys: Keys, inKeys: Keys)
    requires OutOk(env, k) && !k.state.StClosed? && SendPacket(env, k, [MSG_NEWKEYS]).ok
    ensures OutOk(env, SwitchOut(SendPacket(env, k, [MSG_NEWKEYS]).k, outKeys, inKeys))
  {
    hide SendPacket;
    hide Seal;
    hide AfterSeal;
    hide Sendable;
    hide Chain;
    hide EpochsOk;
    var payload := [MSG_NEWKEYS];
    OutEpoch(env, k);
    SentIs(env, k, payload);
    var pad := Random(env, k.drawn, PadLen(k.outDir, |payload|));
    var x := Sent(payload, pad, k.drawn, Seal(env, k.outDir, payload, pad), k.outDir.epoch);
    ChainSnoc(env, k.hist.sent, k.hist.outKeys, k.outDir, x);
    ChainSwitch(env, k.hist.sent, k.hist.outKeys, k.outDir, x, outKeys);
    EpochsSnoc(k.hist.sent, x);
  }

  // ---- frames ----

  predicate SameKexTrace(t: Trace, u: Trace) {
    u == t.(adjusts := u.adjusts, data := u.data)
  }

  predicate SameFlowTrace(t: Trace, u: Trace) {
    u.adjusts == t.adjusts && u.data == t.data
  }

  predicate Extends(k: Core, k': Core) {
    k.hist.sent <= k'.hist.sent && k'.hist.handled == k.hist.handled && k'.versionSent == k.versionSent
  }

  /** Nothing of the key exchange has moved. */
  predicate KexFrame(k: Core, k': Core) {
    && Extends(k, k')
    && k'.kex == k.kex && k'.version == k.version
    && k'.clientKexInit == k.clientKexInit && k'.serverKexInit == k.serverKexInit
    && k'.kexInitSent == k.kexInitSent && k'.ignoreNext == k.ignoreNext && k'.next == k.next
    && k'.sid == k.sid && k'.inDir == k.inDir && k'.pend == k.pend
    && k'.outDir == k.outDir.(pos := k'.outDir.pos, seqNo := k'.outDir.seqNo)
    && k'.hist.hashes == k.hist.hashes && k'.hist.outKeys == k.hist.outKeys && k'.hist.dropped == k.hist.dropped
    && SameKexTrace(TraceOf(k.hist.sent), TraceOf(k'.hist.sent))
    && (k'.state == k.state || k'.state.StClosed? || (k.state.StAuth? && k'.state.StConn?))
  }

  /** Nothing of authentication, the channel and the data that crossed it has moved. */
  predicate SessFrame(k: Core, k': Core) {
    && Extends(k, k')
    && k'.ring == k.ring && k'.consumed == k.consumed && k'.chan == k.chan && k'.login == k.login
    && k'.hist.auths == k.hist.auths && k'.hist.dataIn == k.hist.dataIn && k'.hist.dataRead == k.hist.dataRead
    && k'.hist.lost == k.hist.lost && k'.hist.granted == k.hist.granted && k'.hist.wrapped == k.hist.wrapped
    && SameFlowTrace(TraceOf(k.hist.sent), TraceOf(k'.hist.sent))
    && (k'.state == k.state || k'.state.StClosed? || (k.state.StKex? && k'.state.StAuth?))
  }

  /** Only a message that neither side of the session depends on. */
  ghost predicate Quiet(env: Env, k: Core, k': Core) {
    KexFrame(k, k') && SessFrame(k, k') && (OutOk(env, k) ==> OutOk(env, k'))
  }

  predicate Plainly(p: seq<byte>) {
    && 1 <= |p| <= MAX_PAYLOAD
    && p[0] != MSG_KEXINIT && p[0] != MSG_NEWKEYS && p[0] != MSG_WINDOW_ADJUST && p[0] != MSG_CHANNEL_DATA
  }

  lemma QuietSend(env: Env, k: Core, payload: seq<byte>)
    requires !k.state.StClosed? && Plainly(payload)
    ensures var r := SendPacket(env, k, payload);
      && Quiet(env, k, r.k) && SessFrame(k, r.k)
      && r.k.state == if r.ok then k.state else StClosed
    ensures Quiet(env, k, SendPacket(env, k, payload).k.(state := StClosed))
  {
    hide SendPacket;
    hide OutOk;
    hide TraceOf;
    Send(env, k, payload);
    if OutOk(env, k) {
      SendOut(env, k, payload);
    }
  }

  lemma QuietFail(env: Env, k: Core, reason: uint32, msg: string)
    requires !k.state.StClosed? && |msg| <= 1000
    ensures var r := Fail(env, k, reason, msg);
      Quiet(env, k, r.k) && !r.ok && r.k.state.StClosed?
  {
    hide SendPacket;
    hide Quiet;
    QuietSend(env, k, DisconnectMsg(reason, msg));
  }

  /** What the service half of HandlePacket does, as far as the key exchange is concerned: nothing. */
  ghost predicate ServiceStep(env: Env, k: Core, r: Ret) {
    KexFrame(k, r.k) && (OutOk(env, k) ==> OutOk(env, r.k)) && (!r.ok ==> r.k.state.StClosed?)
  }

  lemma ServiceRequestStep(env: Env, k: Core, p: seq<byte>)
    requires !k.state.StClosed? && p != []
    ensures var r := OnServiceRequest(env, k, p);
      Quiet(env, k, r.k) && (!r.ok ==> r.k.state.StClosed?)
  {
    hide SendPacket;
    hide Quiet;
    hide Fail;
    hide RStr;
    QuietFail(env, k, DISC_PROTOCOL_ERROR, "service request before kex");
    QuietFail(env, k, DISC_PROTOCOL_ERROR, "unknown service");
    QuietSend(env, k, [MSG_SERVICE_ACCEPT] + Str(Ascii("ssh-userauth")));
  }
}
