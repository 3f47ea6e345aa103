/** SSH_CONN as the source keeps it: one object, updated in place. Every method is proved against the state functions of
    Session and Connection, so that whatever a caller does with a connection is one of their runs. */
module Server {
  import opened Bytes
  import opened Wire
  import opened Algorithms
  import opened Environment
  import opened RecordLayer
  import opened KeySchedule
  import opened Session
  import opened Messages
  import opened Connection
  import opened Runtime

  type RxLen = n: nat | n <= RX_BUF
  type RingAt = n: nat | n < RING_SIZE

  lemma PutIn(was: seq<byte>, at: nat, d: seq<byte>)
    requires at + |d| <= |was|
    ensures var now := was[..at] + d + was[at + |d|..];
      now[0..at] == was[..at] && now[at..][..|d|] == d
  {
  }

  /** RxHead, case by case. */
  lemma HeadIs(env: Env, x: Rx)
    requires RxOk(x)
    ensures x.haveLen ==> RxHead(env, x) == (x, HaveLength)
    ensures !x.haveLen && |x.buf| < FirstOf(x.dir) ==> RxHead(env, x) == (x, NeedMore)
    ensures !x.haveLen && |x.buf| >= FirstOf(x.dir) ==>
      var buf := if x.dir.active then Crypt(env, x.dir.keys, x.dir.pos, x.buf[..16]) + x.buf[16..] else x.buf;
      var dir := if x.dir.active then x.dir.(pos := x.dir.pos + 16) else x.dir;
      var n := GetU32(buf);
      RxHead(env, x) == (Rx(dir, buf, LengthOk(dir, n), n), if LengthOk(dir, n) then HaveLength else BadLength)
  {
    hide Crypt;
    hide GetU32;
    hide LengthOk;
  }

  /** The keystream position has no part in the MAC. */
  lemma MacMoves(env: Env, d: Dir, d': Dir, plain: seq<byte>)
    requires d' == d.(pos := d'.pos)
    ensures Mac(env, d', plain) == Mac(env, d, plain)
  {
  }

  lemma AfterTooLittle(env: Env, x: Rx, k: Core)
    requires RxOk(x) && x.haveLen && |x.buf| < Need(x) && !k.state.StVersion?
    ensures AfterStep(env, k, RxBody(env, x)) == (WithRx(k, x), 0)
  {
    hide Session.Disconnect;
    hide Session.Deliver;
  }

  lemma AfterMoves(env: Env, k: Core, s: (Rx, RxResult))
    requires RxOk(s.0) && !s.1.HaveLength? && (s.1.Got? ==> !s.0.haveLen) && !k.state.StVersion?
    ensures AfterStep(env, k.(inDir := s.0.dir), s) == AfterStep(env, k, s)
  {
    hide Session.Disconnect;
    hide Session.Deliver;
  }

  lemma PlainIs(payload: seq<byte>, pad: seq<byte>)
    requires |payload| + 64 <= MAX_PACKET && |pad| < 32
    ensures ((PutU32(1 + |payload| + |pad|) + [|pad|]) + payload) + pad == Plain(payload, pad)
  {
    hide PutU32;
    var n := PutU32(1 + |payload| + |pad|);
    Associates(n + [|pad|], payload, pad);
    Associates(n, [|pad|], payload + pad);
  }

  lemma Onto(was: seq<byte>, front: seq<byte>, d: seq<byte>)
    requires |front| + |d| <= |was| && was[..|front|] == front
    ensures (was[..|front|] + d + was[|front| + |d|..])[..|front| + |d|] == front + d
  {
  }

  lemma ThreeParts(s: seq<byte>, len: nat, mid: nat)
    requires 16 <= mid <= len <= |s|
    ensures s[..len][..16] == s[..16] && s[..len][16..mid] == s[16..mid] && s[..len][mid..] == s[mid..][..len - mid]
    ensures s[..len] == s[..16] + s[16..mid] + s[mid..][..len - mid]
  {
  }

  lemma TwoParts(s: seq<byte>, mid: nat, end: nat)
    requires mid <= end <= |s|
    ensures s[..end] == s[0..mid] + s[mid..][..end - mid]
  {
  }

  lemma NextSlot(i: RingAt)
    ensures (i + 1) % RING_SIZE == if i == RING_SIZE - 1 then 0 else i + 1
  {
  }

  class SshConn {
    const env: Env

    var state: SshState
    var kex: KexState
    var versionSent: bool
    var clientVersion: seq<byte>
    var clientKexInit: seq<byte>
    var serverKexInit: seq<byte>
    var kexInitSent: bool
    var ignoreNextKexPacket: bool
    var next: NextAlgs
    var sessionId: Option<Bytes32>

    var inDir: Dir
    var outDir: Dir
    var pend: Keys

    const rx: array<byte>
    var rxLen: RxLen
    var rxHaveLen: bool
    var rxPktLen: uint32
    const tx: array<byte>
    const pl: array<byte>

    const inRing: array<byte>
    var inHead: RingAt
    var inTail: RingAt
    ghost var waiting: seq<byte>
    var consumed: uint32

    var chan: Chan
    var login: Login

    var drawn: nat          // bytes taken from the random number generator
    var writes: nat         // writes to the socket so far
    ghost var hist: Hist

    /** The buffers are allocated once; nothing else about them ever needs restoring. */
    ghost predicate Valid() {
      && rx.Length == RX_BUF && tx.Length == RX_BUF && pl.Length == PL_BUF && inRing.Length == RING_SIZE
      && rx != tx && rx != pl && rx != inRing && tx != pl && tx != inRing && pl != inRing
    }

    /** The ring holds `waiting`, oldest byte first. */
    ghost predicate RingOk()
      reads `waiting, `inHead, `inTail, inRing
      ensures RingOk() ==> |waiting| < RING_SIZE
    {
      && inRing.Length == RING_SIZE
      && waiting == if inTail <= inHead then inRing[inTail..inHead] else inRing[inTail..] + inRing[..inHead]
    }

    /** The session this object stands for. */
    ghost function Abs(): Core
      reads this
    {
      Core(state, kex, versionSent, clientVersion, clientKexInit, serverKexInit, kexInitSent, ignoreNextKexPacket, next,
           sessionId, inDir, outDir, pend, waiting, consumed, chan, login, drawn, writes, hist)
    }

    /** The whole connection this object stands for. */
    ghost function View(): Conn
      requires Valid()
      reads this, rx
    {
      Conn(Abs(), rx[..rxLen], rxHaveLen, rxPktLen)
    }

    constructor (env: Env)
      ensures Valid() && RingOk() && View() == FRESH && this.env == env
      ensures fresh(rx) && fresh(tx) && fresh(pl) && fresh(inRing)
    {
      this.env := env;
      state, kex, versionSent := StVersion, KxIdle, false;
      clientVersion, clientKexInit, serverKexInit, kexInitSent, ignoreNextKexPacket := [], [], [], false, false;
      sessionId, inDir, outDir, pend := None, CLEAR, CLEAR, NO_KEYS;
      rx, tx, pl, inRing := new byte[RX_BUF], new byte[RX_BUF], new byte[PL_BUF], new byte[RING_SIZE];
      rxLen, rxHaveLen, rxPktLen := 0, false, 0;
      inHead, inTail, waiting, consumed := 0, 0, [], 0;
      chan, login, next := INIT_CHAN, Login(false, 0, []), NextAlgs(0, 0, Sha256, Sha256);
      drawn, writes := 0, 0;
      hist := INIT_HIST;
    }

    // ---- packet layer ----

    /** AES-CTR over part of a buffer, in place. */
    method AesCtr(k: Keys, pos: nat, a: array<byte>, from: nat, to: nat)
      requires from <= to <= a.Length
      modifies a
      ensures a[..from] == old(a[..from]) && a[to..] == old(a[to..])
      ensures a[from..to] == Crypt(env, k, pos, old(a[from..to]))
    {
      forall i | from <= i < to {
        a[i] := Xor(a[i], env.keystream(k.encKey, k.iv, pos + (i - from)));
      }
      ghost var was := old(a[from..to]);
      assert forall j :: 0 <= j < to - from ==> was[j] == old(a[from + j]);
    }

    /** The plain record, built in the transmit buffer. */
    method FillRecord(payload: seq<byte>, pad: seq<byte>)
      requires Valid() && |payload| + 64 <= MAX_PACKET && |pad| < 32
      modifies tx
      ensures tx[..5 + |payload| + |pad|] == Plain(payload, pad)
    {
      hide PutU32;
      var len := |payload|;
      StartRecord(1 + len + |pad|, |pad|);
      ghost var head, was := tx[..5], tx[..];
      MemCpy(tx, 5, payload);
      Onto(was, head, payload);
      was := tx[..];
      MemCpy(tx, 5 + len, pad);
      Onto(was, head + payload, pad);
      PlainIs(payload, pad);
    }

    method StartRecord(total: uint32, padLen: byte)
      requires Valid()
      modifies tx
      ensures tx[..5] == PutU32(total) + [padLen]
    {
      hide PutU32;
      MemCpy(tx, 0, PutU32(total));
      tx[4] := padLen;
    }

    /** Authenticates and encrypts what the transmit buffer holds. */
    method Protect(total: nat) returns (n: nat)
      requires Valid() && total + MAX_MAC <= tx.Length
      modifies tx
      ensures n <= tx.Length
      ensures tx[..n] == (var plain := old(tx[..total]);
        if outDir.active then Crypt(env, outDir.keys, outDir.pos, plain) + Mac(env, outDir, plain) else plain)
    {
      hide Crypt;
      hide PutU32;
      hide Hmac;
      n := total;
      if outDir.active {
        ghost var plain := tx[..total];
        var mac := Hmac(env, outDir.keys.macType, outDir.keys.macKey, PutU32(outDir.seqNo) + tx[..total]);
        ghost var was := tx[..];
        MemCpy(tx, total, mac);
        PutIn(was, total, mac);
        AesCtr(outDir.keys, outDir.pos, tx, 0, total);
        n := total + |mac|;
        TwoParts(tx[..], total, n);
      }
    }

    method DrawRandom(n: nat) returns (r: seq<byte>)
      requires Valid()
      modifies `drawn
      ensures Abs() == old(Abs()).(drawn := old(drawn) + n)
      ensures r == Random(env, old(drawn), n)
    {
      r := Random(env, drawn, n);
      drawn := drawn + n;
    }

    method DrawPadding(len: nat) returns (pad: seq<byte>)
      requires Valid()
      modifies `drawn
      ensures Abs() == old(Abs()).(drawn := old(drawn) + |pad|)
      ensures pad == Random(env, old(drawn), PadLen(outDir, len))
    {
      var blk := if outDir.active then 16 else 8;
      var n := blk - (5 + len) % blk;
      if n < 4 {
        n := n + blk;
      }
      pad := DrawRandom(n);
    }

    /** The record is built: the cipher and the sequence number move on. */
    method Account(len: nat)
      requires Valid()
      modifies `outDir
      ensures Abs() == old(Abs()).(outDir := Advance(old(outDir), len))
    {
      outDir := outDir.(pos := if outDir.active then outDir.pos + len else outDir.pos, seqNo := Low32(outDir.seqNo + 1));
    }

    /** The socket takes the bytes or the connection is over. */
    method Write(data: seq<byte>) returns (ok: bool)
      requires Valid()
      modifies `writes, `state
      ensures ok == WriteOk(env, old(writes))
      ensures Abs() == old(Abs()).(writes := old(writes) + 1, state := if ok then old(state) else StClosed)
    {
      ok := WriteOk(env, writes);
      writes := writes + 1;
      if !ok {
        state := StClosed;
      }
    }

    /** A packet is logged as it is written: the log's bytes are the socket's. */
    method WriteRecord(wire: seq<byte>, ghost payload: seq<byte>, ghost pad: seq<byte>, ghost at: nat, ghost epoch: nat) returns (ok: bool)
      requires Valid()
      modifies `writes, `state, `hist
      ensures ok == WriteOk(env, old(writes))
      ensures Abs() == old(Abs()).(
        writes := old(writes) + 1, state := if ok then old(state) else StClosed,
        hist := old(hist).(sent := old(hist).sent + [Sent(payload, pad, at, wire, epoch)]))
    {
      hide WriteOk;
      hist := hist.(sent := hist.sent + [Sent(payload, pad, at, wire, epoch)]);
      ok := Write(wire);
    }

    /** The identification line of RFC 4253 section 4.2. */
    method WriteLine(line: seq<byte>) returns (ok: bool)
      requires Valid() && line == Ascii("SSH-2.0-UefiSshShell_0.1") + [13, 10]
      modifies `writes, `state
      ensures ok == WriteOk(env, old(writes))
      ensures Abs() == old(Abs()).(writes := old(writes) + 1, state := if ok then old(state) else StClosed)
    {
      hide WriteOk;
      ok := Write(line);
    }

    method SendPacket(payload: seq<byte>) returns (ok: bool)
      requires Valid()
      modifies `state, `drawn, `outDir, `writes, `hist, tx
      ensures Ret(Abs(), ok) == Session.SendPacket(env, old(Abs()), payload)
    {
      hide Plain;
      hide Crypt;
      hide Mac;
      hide PadLen;
      hide Advance;
      hide Random;
      hide WriteOk;
      if state.StClosed? || |payload| + 64 > MAX_PACKET {
        return false;
      }
      ghost var at := drawn;
      var pad := DrawPadding(|payload|);
      FillRecord(payload, pad);
      var n := Protect(5 + |payload| + |pad|);
      ghost var epoch := outDir.epoch;
      Account(5 + |payload| + |pad|);
      ok := WriteRecord(tx[..n], payload, pad, at, epoch);
    }

    method Disconnect(reason: uint32, msg: string)
      requires Valid() && |msg| <= 1000
      modifies `state, `drawn, `outDir, `writes, `hist, tx, pl
      ensures Abs() == Session.Disconnect(env, old(Abs()), reason, msg)
    {
      hide Session.SendPacket;
      hide DisconnectMsg;
      if state.StClosed? {
        return;
      }
      var n := WriteDisconnect(pl, reason, msg);
      var _ := SendPacket(pl[..n]);
      state := StClosed;
    }

    method SendOne(msg: byte) returns (ok: bool)
      requires Valid()
      modifies `state, `drawn, `outDir, `writes, `hist, tx, pl
      ensures Ret(Abs(), ok) == Session.SendPacket(env, old(Abs()), [msg])
    {
      hide Session.SendPacket;
      var n := WriteOne(pl, msg);
      ok := SendPacket(pl[..n]);
    }

    predicate CanSendNow()
      reads this
    {
      state.StConn? && chan.open && !chan.closeSent && (kex.KxIdle? || kex.KxWaitNewKeys?)
    }

    // ---- key exchange ----

    method SendKexInit() returns (ok: bool)
      requires Valid()
      modifies `state, `drawn, `outDir, `writes, `hist, `serverKexInit, `kexInitSent, tx, pl
      ensures Ret(Abs(), ok) == Session.SendKexInit(env, old(Abs()))
    {
      hide Session.SendPacket;
      hide KexInitMsg;
      hide Random;
      BuildKexInit();
      ok := SendPacket(serverKexInit);
    }

    method BuildKexInit()
      requires Valid()
      modifies `drawn, `serverKexInit, `kexInitSent, pl
      ensures Abs() == old(Abs()).(
        drawn := old(drawn) + 16, serverKexInit := KexInitMsg(Random(env, old(drawn), 16)), kexInitSent := true)
    {
      hide KexInitMsg;
      hide Random;
      var cookie := Random(env, drawn, 16);
      var n := WriteKexInit(pl, cookie);
      drawn := drawn + 16;
      serverKexInit := pl[..n];
      kexInitSent := true;
    }

    method Choose(client: seq<byte>, ours: seq<byte>) returns (name: Option<seq<byte>>)
      ensures name == Pick(client, ours)
    {
      hide Pick;
      var found, at, len := PickAlg(client, ours);
      name := if found then Some(client[at..at + len]) else None;
    }

    method Fail(reason: uint32, msg: string) returns (ok: bool)
      requires Valid() && |msg| <= 1000
      modifies `state, `drawn, `outDir, `writes, `hist, tx, pl
      ensures Ret(Abs(), ok) == Session.Fail(env, old(Abs()), reason, msg)
    {
      hide Session.Disconnect;
      Disconnect(reason, msg);
      ok := false;
    }

    method Negotiate() returns (ok: bool)
      requires Valid()
      modifies `state, `drawn, `outDir, `writes, `hist, `ignoreNextKexPacket, `next, tx, pl
      ensures Ret(Abs(), ok) == Session.Negotiate(env, old(Abs()))
    {
      hide Session.Fail;
      hide Session.NegotiateLists;
      hide ParseKex;
      if |clientKexInit| < 17 {
        ok := Fail(DISC_PROTOCOL_ERROR, "short KEXINIT");
        return;
      }
      var l := ReadLists(clientKexInit[17..]);
      if l.None? {
        ok := Fail(DISC_PROTOCOL_ERROR, "bad KEXINIT");
        return;
      }
      ok := NegotiateLists(l.value);
    }

    method NegotiateLists(l: KexLists) returns (ok: bool)
      requires Valid()
      modifies `state, `drawn, `outDir, `writes, `hist, `ignoreNextKexPacket, `next, tx, pl
      ensures Ret(Abs(), ok) == Session.NegotiateLists(env, old(Abs()), l)
    {
      hide Session.Fail;
      hide Session.NegotiateCiphers;
      hide Pick;
      hide WrongGuess;
      var pick := Choose(l.kex, OUR_LISTS.kex);
      if pick.None? {
        ok := Fail(DISC_KEY_EXCHANGE_FAILED, "no common kex algorithm (need curve25519-sha256)");
        return;
      }
      NoteGuess(l, pick.value);
      pick := Choose(l.hostKey, OUR_LISTS.hostKey);
      if pick.None? {
        ok := Fail(DISC_KEY_EXCHANGE_FAILED, "no common host key algorithm (need ssh-ed25519)");
        return;
      }
      ok := NegotiateCiphers(l);
    }

    method NoteGuess(l: KexLists, chosen: seq<byte>)
      requires Valid()
      modifies `ignoreNextKexPacket
      ensures Abs() == old(Abs()).(ignoreNext := WrongGuess(l, chosen))
    {
      hide CommaAt;
      ignoreNextKexPacket := false;
      if l.firstFollows != 0 {
        var n := FirstEntryLen(l.kex);
        var m := FirstEntryLen(l.hostKey);
        if l.kex[..n] != chosen || l.hostKey[..m] != Ascii("ssh-ed25519") {
          ignoreNextKexPacket := true;
        }
      }
    }

    method NegotiateCiphers(l: KexLists) returns (ok: bool)
      requires Valid()
      modifies `state, `drawn, `outDir, `writes, `hist, `next, tx, pl
      ensures Ret(Abs(), ok) == Session.NegotiateCiphers(env, old(Abs()), l)
    {
      hide Session.Fail;
      hide Session.NegotiateMacs;
      hide Pick;
      hide EncKeyLen;
      var pick := Choose(l.encCs, OUR_LISTS.encCs);
      if pick.None? {
        ok := Fail(DISC_KEY_EXCHANGE_FAILED, "no common cipher (need aes-ctr)");
        return;
      }
      next := next.(encIn := EncKeyLen(pick.value));
      pick := Choose(l.encSc, OUR_LISTS.encSc);
      if pick.None? {
        ok := Fail(DISC_KEY_EXCHANGE_FAILED, "no common cipher (need aes-ctr)");
        return;
      }
      next := next.(encOut := EncKeyLen(pick.value));
      ok := NegotiateMacs(l);
    }

    method NegotiateMacs(l: KexLists) returns (ok: bool)
      requires Valid()
      modifies `state, `drawn, `outDir, `writes, `hist, `next, tx, pl
      ensures Ret(Abs(), ok) == Session.NegotiateMacs(env, old(Abs()), l)
    {
      hide Session.Fail;
      hide Pick;
      hide MacTypeOf;
      var pick := Choose(l.macCs, OUR_LISTS.macCs);
      if pick.None? {
        ok := Fail(DISC_KEY_EXCHANGE_FAILED, "no common MAC (need hmac-sha2-256)");
        return;
      }
      next := next.(macIn := MacTypeOf(pick.value));
      pick := Choose(l.macSc, OUR_LISTS.macSc);
      if pick.None? {
        ok := Fail(DISC_KEY_EXCHANGE_FAILED, "no common MAC (need hmac-sha2-256)");
        return;
      }
      next := next.(macOut := MacTypeOf(pick.value));
      var compCs := Choose(l.compCs, OUR_LISTS.compCs);
      var compSc := Choose(l.compSc, OUR_LISTS.compSc);
      if compCs.None? || compSc.None? {
        ok := Fail(DISC_KEY_EXCHANGE_FAILED, "compression not supported");
        return;
      }
      ok := true;
    }

    method OnKexInit(p: seq<byte>) returns (ok: bool)
      requires Valid()
      modifies `state, `drawn, `outDir, `writes, `hist, `ignoreNextKexPacket, `next, `kex
      modifies `clientKexInit, `serverKexInit, `kexInitSent, tx, pl
      ensures Ret(Abs(), ok) == Session.OnKexInit(env, old(Abs()), p)
    {
      hide Session.Fail;
      hide Session.SendKexInit;
      hide Session.Negotiate;
      if !kex.KxIdle? && !kex.KxWaitKexInit? {
        ok := Fail(DISC_PROTOCOL_ERROR, "unexpected KEXINIT");
        return;
      }
      ok := ExchangeInits(p);
      if ok {
        ok := Settle();
      }
    }

    method ExchangeInits(p: seq<byte>) returns (ok: bool)
      requires Valid()
      modifies `state, `drawn, `outDir, `writes, `hist, `clientKexInit, `serverKexInit, `kexInitSent, tx, pl
      ensures var k := old(Abs()).(clientKexInit := p, hist := old(hist).(dropped := 0));
        Ret(Abs(), ok) == if k.kexInitSent then Ret(k, true) else Session.SendKexInit(env, k)
    {
      hide Session.SendKexInit;
      clientKexInit := p;
      hist := hist.(dropped := 0);
      ok := true;
      if !kexInitSent {
        ok := SendKexInit();
      }
    }

    method Settle() returns (ok: bool)
      requires Valid()
      modifies `state, `drawn, `outDir, `writes, `hist, `ignoreNextKexPacket, `next, `kex, `kexInitSent, tx, pl
      ensures var n := Session.Negotiate(env, old(Abs()).(kexInitSent := false));
        Ret(Abs(), ok) == if n.ok then Ret(n.k.(kex := KxWaitDh), true) else n
    {
      hide Session.Negotiate;
      kexInitSent := false;
      ok := Negotiate();
      if ok {
        kex := KxWaitDh;
      }
    }

    method OnKexDhInit(p: seq<byte>) returns (ok: bool)
      requires Valid() && p != []
      modifies `state, `drawn, `outDir, `writes, `hist, `kex, `sessionId, `pend, tx, pl
      ensures Ret(Abs(), ok) == Session.OnKexDhInit(env, old(Abs()), p)
    {
      hide Session.Fail;
      hide Session.FinishKex;
      hide RStr;
      hide Random;
      hide DhShared;
      hide DhPublic;
      if !kex.KxWaitDh? {
        ok := Fail(DISC_PROTOCOL_ERROR, "unexpected KEXDH_INIT");
        return;
      }
      var r := new RBuf(p[1..]);
      var qc := r.GetStr();
      if r.err || |qc| != 32 {
        ok := Fail(DISC_KEY_EXCHANGE_FAILED, "bad KEXDH_INIT");
        return;
      }
      var priv := DrawRandom(32);
      var shared := DhShared(env, priv, qc);
      if shared.None? {
        ok := Fail(DISC_KEY_EXCHANGE_FAILED, "curve25519 failure");
        return;
      }
      ok := FinishKex(qc, DhPublic(env, priv), shared.value);
    }

    /** The keys of one direction, derived 96 bytes at a time at most and cut to what the algorithms use. */
    method DeriveKeys(kMp: seq<byte>, h: seq<byte>, sid: seq<byte>, letters: (byte, byte, byte), encLen: KeyLen, mac: MacType)
      returns (keys: Keys)
      ensures keys == CutKeys(env, kMp, h, sid, letters, encLen, mac)
    {
      hide Derived;
      var iv := DeriveKey(env, kMp, h, letters.0, sid, 16);
      var key := DeriveKey(env, kMp, h, letters.1, sid, 32);
      var macKey := DeriveKey(env, kMp, h, letters.2, sid, 64);
      keys := Keys(key[..encLen], iv, macKey[..MacLen(mac)], mac);
    }

    method FinishKex(qc: seq<byte>, qs: Bytes32, shared: Bytes32) returns (ok: bool)
      requires Valid()
      modifies `state, `drawn, `outDir, `writes, `hist, `kex, `sessionId, `pend, tx, pl
      ensures Ret(Abs(), ok) == Session.FinishKex(env, old(Abs()), qc, qs, shared)
    {
      hide Session.SendPacket;
      hide CutKeys;
      hide ExchangeHash;
      hide KexReply;
      hide Install;
      hide MpintOf;
      hide HostKeyBlob;
      var kMp := MpintBytes(shared);
      var ks := HostKeyBytes(env);
      var h := ExchangeHash(env, clientVersion, SERVER_VERSION, clientKexInit, serverKexInit, ks, qc, qs, shared);
      NoteHash(h);
      var outKeys := DeriveKeys(kMp, h, sessionId.value, S2C, next.encOut, next.macOut);
      var inKeys := DeriveKeys(kMp, h, sessionId.value, C2S, next.encIn, next.macIn);
      var n := WriteReply(pl, env, ks, qs, h);
      ok := SendPacket(pl[..n]);
      if !ok {
        return;
      }
      ok := SendOne(MSG_NEWKEYS);
      if !ok {
        return;
      }
      SwitchOut(outKeys, inKeys);
    }

    /** The first exchange hash is the session id for good. */
    method NoteHash(h: Bytes32)
      requires Valid()
      modifies `sessionId, `hist
      ensures sessionId.Some?
      ensures Abs() == old(Abs()).(sid := Some(if old(sessionId).Some? then old(sessionId).value else h),
                                   hist := old(hist).(hashes := old(hist).hashes + [h]))
    {
      if sessionId.None? {
        sessionId := Some(h);
      }
      hist := hist.(hashes := hist.hashes + [h]);
    }

    method SwitchOut(outKeys: Keys, inKeys: Keys)
      requires Valid()
      modifies `outDir, `pend, `kex, `hist
      ensures Abs() == Session.SwitchOut(old(Abs()), outKeys, inKeys)
    {
      hide Install;
      InstallOut(outKeys);
      pend := inKeys;
      kex := KxWaitNewKeys;
    }

    method InstallOut(outKeys: Keys)
      requires Valid()
      modifies `outDir, `hist
      ensures Abs() == old(Abs()).(outDir := Install(old(outDir), outKeys),
                                   hist := old(hist).(outKeys := old(hist).outKeys + [outKeys]))
    {
      outDir := Install(outDir, outKeys);
      hist := hist.(outKeys := hist.outKeys + [outKeys]);
    }

    method OnNewKeys() returns (ok: bool)
      requires Valid()
      modifies `state, `drawn, `outDir, `writes, `hist, `kex, `inDir, `pend, tx, pl
      ensures Ret(Abs(), ok) == Session.OnNewKeys(env, old(Abs()))
    {
      hide Session.Fail;
      if !kex.KxWaitNewKeys? {
        ok := Fail(DISC_PROTOCOL_ERROR, "unexpected NEWKEYS");
        return;
      }
      ok := true;
      TakePendingKeys();
    }

    method TakePendingKeys()
      requires Valid()
      modifies `state, `kex, `inDir, `pend
      ensures Abs() == old(Abs()).(
        inDir := Install(old(inDir), old(pend)),
        pend := old(pend).(encKey := Zeros(|old(pend).encKey|), macKey := Zeros(|old(pend).macKey|)),
        kex := KxIdle, state := if old(state).StKex? then StAuth else old(state))
    {
      hide Zeros;
      hide Install;
      InstallIn();
      EndExchange();
    }

    method InstallIn()
      requires Valid()
      modifies `inDir, `pend
      ensures Abs() == old(Abs()).(
        inDir := Install(old(inDir), old(pend)),
        pend := old(pend).(encKey := Zeros(|old(pend).encKey|), macKey := Zeros(|old(pend).macKey|)))
    {
      hide Zeros;
      hide Install;
      inDir := Install(inDir, pend);
      pend := pend.(encKey := Zeros(|pend.encKey|), macKey := Zeros(|pend.macKey|));
    }

    method EndExchange()
      requires Valid()
      modifies `state, `kex
      ensures Abs() == old(Abs()).(kex := KxIdle, state := if old(state).StKex? then StAuth else old(state))
    {
      kex := KxIdle;
      if state.StKex? {
        state := StAuth;
      }
    }

    // ---- service and authentication ----

    method OnServiceRequest(p: seq<byte>) returns (ok: bool)
      requires Valid() && p != []
      modifies `state, `drawn, `outDir, `writes, `hist, tx, pl
      ensures Ret(Abs(), ok) == Session.OnServiceRequest(env, old(Abs()), p)
    {
      hide Session.Fail;
      hide Session.SendPacket;
      hide RStr;
      if state.StVersion? || state.StKex? {
        ok := Fail(DISC_PROTOCOL_ERROR, "service request before kex");
        return;
      }
      var r := new RBuf(p[1..]);
      var name := r.GetStr();
      if r.err || name != Ascii("ssh-userauth") {
        ok := Fail(DISC_PROTOCOL_ERROR, "unknown service");
        return;
      }
      var n := WriteServiceAccept(pl);
      ok := SendPacket(pl[..n]);
    }

    method SendAuthFailure() returns (ok: bool)
      requires Valid()
      modifies `state, `drawn, `outDir, `writes, `hist, tx, pl
      ensures Ret(Abs(), ok) == Session.SendAuthFailure(env, old(Abs()))
    {
      hide Session.SendPacket;
      var n := WriteAuthFailure(pl);
      ok := SendPacket(pl[..n]);
    }

    method OnUserauth(p: seq<byte>) returns (ok: bool)
      requires Valid() && p != []
      modifies `state, `drawn, `outDir, `writes, `hist, `login, tx, pl
      ensures Ret(Abs(), ok) == Session.OnUserauth(env, old(Abs()), p)
    {
      hide Session.Fail;
      hide Session.SendAuthFailure;
      hide Session.CheckPassword;
      hide RStr;
      hide Ascii;
      if state.StConn? {
        return true;
      }
      if !state.StAuth? {
        ok := Fail(DISC_PROTOCOL_ERROR, "auth before kex");
        return;
      }
      var r := new RBuf(p[1..]);
      var user := r.GetStr();
      var service := r.GetStr();
      var m := r.GetStr();
      if r.err {
        ok := Fail(DISC_PROTOCOL_ERROR, "bad USERAUTH_REQUEST");
        return;
      }
      if service != Ascii("ssh-connection") {
        ok := Fail(DISC_PROTOCOL_ERROR, "unknown service");
        return;
      }
      NoteUser(if |user| >= 64 then user[..63] else user);
      ok := CheckPassword(m, r, ParseAuth(p));
    }

    method NoteUser(user: seq<byte>)
      requires Valid()
      modifies `login
      ensures Abs() == old(Abs()).(login := old(login).(user := user))
    {
      login := login.(user := user);
    }

    method CheckPassword(m: seq<byte>, r: RBuf, ghost a: AuthRequest) returns (ok: bool)
      requires Valid() && m == a.method_ && r.State() == a.rest
      modifies r, `state, `drawn, `outDir, `writes, `hist, `login, tx, pl
      ensures Ret(Abs(), ok) == Session.CheckPassword(env, old(Abs()), a)
    {
      hide Session.SendAuthFailure;
      hide Session.Authorize;
      hide RStr;
      hide RByte;
      hide CStr;
      if m != Ascii("password") {
        ok := SendAuthFailure();
        return;
      }
      var change := r.GetByte();
      if change != 0 {
        ok := SendAuthFailure();
        return;
      }
      var pass := r.GetStr();
      if r.err || |pass| >= 256 {
        ok := SendAuthFailure();
        return;
      }
      ok := Authorize(CStr(pass));
    }

    method AskCallback(pass: seq<byte>) returns (yes: bool)
      requires Valid()
      modifies `hist
      ensures yes == Consents(env, login.tries, CStr(login.user), pass)
      ensures Abs() == old(Abs()).(hist := old(hist).(auths := old(hist).auths + [yes]))
    {
      hide CStr;
      hide Consents;
      yes := Consents(env, login.tries, CStr(login.user), pass);
      hist := hist.(auths := hist.auths + [yes]);
    }

    method Authorize(pass: seq<byte>) returns (ok: bool)
      requires Valid()
      modifies `state, `drawn, `outDir, `writes, `hist, `login, tx, pl
      ensures Ret(Abs(), ok) == Session.Authorize(env, old(Abs()), pass)
    {
      hide Session.Fail;
      hide Session.SendPacket;
      hide Session.SendAuthFailure;
      hide Consents;
      hide CStr;
      var yes := AskCallback(pass);
      if yes {
        Admit();
        ok := SendOne(MSG_USERAUTH_SUCCESS);
      } else {
        ok := Refuse();
      }
    }

    method Refuse() returns (ok: bool)
      requires Valid()
      modifies `state, `drawn, `outDir, `writes, `hist, `login, tx, pl
      ensures var k := old(Abs()).(login := old(login).(tries := old(login).tries + 1));
        Ret(Abs(), ok) == if k.login.tries >= MAX_AUTH_TRIES
          then Session.Fail(env, k, DISC_NO_MORE_AUTH, "too many failed attempts") else Session.SendAuthFailure(env, k)
    {
      hide Session.Fail;
      hide Session.SendAuthFailure;
      login := login.(tries := login.tries + 1);
      if login.tries >= MAX_AUTH_TRIES {
        ok := Fail(DISC_NO_MORE_AUTH, "too many failed attempts");
      } else {
        ok := SendAuthFailure();
      }
    }

    method Admit()
      requires Valid()
      modifies `login, `state
      ensures Abs() == old(Abs()).(login := old(login).(authenticated := true), state := StConn)
    {
      login := login.(authenticated := true);
      state := StConn;
    }

    // ---- connection layer ----

    method OnGlobalRequest(p: seq<byte>) returns (ok: bool)
      requires Valid() && p != []
      modifies `state, `drawn, `outDir, `writes, `hist, tx, pl
      ensures Ret(Abs(), ok) == Session.OnGlobalRequest(env, old(Abs()), p)
    {
      hide Session.SendPacket;
      hide RStr;
      hide RByte;
      var r := new RBuf(p[1..]);
      var name := r.GetStr();
      var wantReply := r.GetByte();
      ok := true;
      if !r.err && wantReply != 0 {
        ok := SendOne(MSG_REQUEST_FAILURE);
      }
    }

    method OpenChannel(sender: uint32, window: uint32, maxPkt: uint32)
      requires Valid()
      modifies `chan, `hist
      ensures Abs() == Session.OpenChannel(old(Abs()), sender, window, maxPkt)
    {
      chan := chan.(open := true, remote := sender, window := window, maxPkt := maxPkt,
                    closeSent := false, closeRecv := false, remoteEof := false);
      hist := hist.(granted := window, wrapped := false);
    }

    method OnChannelOpen(p: seq<byte>) returns (ok: bool)
      requires Valid() && p != []
      modifies `state, `drawn, `outDir, `writes, `hist, `chan, tx, pl
      ensures Ret(Abs(), ok) == Session.OnChannelOpen(env, old(Abs()), p)
    {
      hide Session.Fail;
      hide Session.SendPacket;
      hide Session.OpenChannel;
      hide RStr;
      hide RU32;
      hide PutU32;
      if !state.StConn? {
        ok := Fail(DISC_PROTOCOL_ERROR, "channel before auth");
        return;
      }
      var r := new RBuf(p[1..]);
      var kind := r.GetStr();
      var sender := r.GetInt();
      var window := r.GetInt();
      var maxPkt := r.GetInt();
      if r.err {
        ok := Fail(DISC_PROTOCOL_ERROR, "bad CHANNEL_OPEN");
        return;
      }
      if kind == Ascii("session") && !chan.open {
        OpenChannel(sender, window, maxPkt);
        var n := WriteOpenConfirm(pl, sender);
        ok := SendPacket(pl[..n]);
      } else {
        ok := RefuseOpen(sender);
      }
    }

    method RefuseOpen(sender: uint32) returns (ok: bool)
      requires Valid()
      modifies `state, `drawn, `outDir, `writes, `hist, tx, pl
      ensures var why := if old(chan).open then "only one session per connection" else "unsupported channel type";
        Ret(Abs(), ok) == Session.SendPacket(env, old(Abs()),
          [MSG_CHANNEL_OPEN_FAILURE] + PutU32(sender) + PutU32(if old(chan).open then 4 else 3) + Str(Ascii(why)) + Str([]))
    {
      hide Session.SendPacket;
      hide PutU32;
      hide Str;
      var n;
      if chan.open {
        n := WriteOpenFailure(pl, sender, 4, "only one session per connection");
      } else {
        n := WriteOpenFailure(pl, sender, 3, "unsupported channel type");
      }
      ok := SendPacket(pl[..n]);
    }

    method SendChannelReply(msg: byte) returns (ok: bool)
      requires Valid()
      modifies `state, `drawn, `outDir, `writes, `hist, tx, pl
      ensures Ret(Abs(), ok) == Session.SendChannelReply(env, old(Abs()), msg)
    {
      hide Session.SendPacket;
      var n := WriteNumber(pl, msg, chan.remote);
      ok := SendPacket(pl[..n]);
    }

    method OnChannelRequest(p: seq<byte>) returns (ok: bool)
      requires Valid() && p != []
      modifies `state, `drawn, `outDir, `writes, `hist, `chan, tx, pl
      ensures Ret(Abs(), ok) == Session.OnChannelRequest(env, old(Abs()), p)
    {
      hide Session.Fail;
      hide Session.SendChannelReply;
      hide RStr;
      hide RU32;
      hide RByte;
      hide RequestEffect;
      hide RInit;
      if !state.StConn? {
        ok := Fail(DISC_PROTOCOL_ERROR, "channel before auth");
        return;
      }
      var r := new RBuf(p[1..]);
      var recipient := r.GetInt();
      var kind := r.GetStr();
      var wantReply := r.GetByte();
      if r.err || recipient != 0 || !chan.open {
        ok := Fail(DISC_PROTOCOL_ERROR, "bad CHANNEL_REQUEST");
        return;
      }
      var granted := Request(kind, r);
      ok := true;
      if wantReply != 0 {
        ok := SendChannelReply(if granted then MSG_CHANNEL_SUCCESS else MSG_CHANNEL_FAILURE);
      }
    }

    /** What the request asks for, done; whether it is granted. */
    method Request(kind: seq<byte>, r: RBuf) returns (granted: bool)
      requires Valid()
      modifies r, `chan
      ensures (chan, granted) == RequestEffect(old(chan), kind, old(r.State()))
      ensures Abs() == old(Abs()).(chan := chan)
    {
      hide RStr;
      hide RU32;
      granted := false;
      if kind == Ascii("pty-req") {
        var term := r.GetStr();
        granted := NewSize(r);
      } else if kind == Ascii("shell") {
        chan := chan.(shellReady := true);
        granted := true;
      } else if kind == Ascii("window-change") {
        var _ := NewSize(r);
        granted := true;
      } else if kind == Ascii("env") {
        granted := true;
      }
    }

    /** The size of the client's terminal, each part taken if it makes sense. */
    method NewSize(r: RBuf) returns (good: bool)
      requires Valid()
      modifies r, `chan
      ensures var (cols, r1) := RU32(old(r.State()));
        var (rows, r2) := RU32(r1);
        good == !r2.err && chan == if good then Resize(old(chan), cols, rows) else old(chan)
      ensures Abs() == old(Abs()).(chan := chan)
    {
      hide RU32;
      var cols := r.GetInt();
      var rows := r.GetInt();
      good := !r.err;
      if good {
        if 0 < cols < 1000 {
          chan := chan.(cols := cols);
        }
        if 0 < rows < 1000 {
          chan := chan.(rows := rows);
        }
      }
    }

    /** Byte by byte into the ring; one slot always stays free, and what does not fit is gone. */
    method RingPush(d: seq<byte>)
      requires Valid() && RingOk()
      modifies `inHead, `waiting, `hist, inRing
      ensures RingOk() && Abs() == Push(old(Abs()), d)
    {
      hide RingOk;
      var n := RingStore(d);
      hist := hist.(dataIn := hist.dataIn + d, lost := hist.lost + (|d| - n));
    }

    method RingStore(d: seq<byte>) returns (n: nat)
      requires Valid() && RingOk()
      modifies `inHead, `waiting, inRing
      ensures RingOk()
      ensures n <= |d| && waiting == old(waiting) + d[..n]
      ensures n < |d| ==> |waiting| == RING_SIZE - 1
    {
      hide RingOk;
      n := 0;
      while n < |d|
        invariant 0 <= n <= |d| && RingOk() && waiting == old(waiting) + d[..n]
      {
        var pushed := RingPut(d[n]);
        if !pushed {
          return;
        }
        n := n + 1;
      }
    }

    method RingPut(b: byte) returns (pushed: bool)
      requires Valid() && RingOk()
      modifies `inHead, `waiting, inRing
      ensures RingOk() && |old(waiting)| <= RING_SIZE - 1
      ensures pushed == (|old(waiting)| < RING_SIZE - 1)
      ensures waiting == if pushed then old(waiting) + [b] else old(waiting)
    {
      NextSlot(inHead);
      var next := (inHead + 1) % RING_SIZE;
      if next == inTail {
        return false;
      }
      ghost var was := inRing[..];
      inRing[inHead] := b;
      assert forall k :: 0 <= k < RING_SIZE && k != inHead ==> inRing[k] == was[k];
      inHead := next;
      waiting := waiting + [b];
      pushed := true;
    }

    /** The oldest byte out of the ring. */
    method RingTake() returns (b: byte)
      requires Valid() && RingOk() && waiting != []
      modifies `inTail, `waiting
      ensures RingOk() && b == old(waiting)[0] && waiting == old(waiting)[1..]
    {
      NextSlot(inTail);
      b := inRing[inTail];
      inTail := (inTail + 1) % RING_SIZE;
      waiting := waiting[1..];
    }

    method OnChannelData(p: seq<byte>) returns (ok: bool)
      requires Valid() && RingOk() && p != []
      modifies `state, `drawn, `outDir, `writes, `hist, `inHead, `waiting, tx, pl, inRing
      ensures RingOk() && Ret(Abs(), ok) == Session.OnChannelData(env, old(Abs()), p)
    {
      hide RingOk;
      hide Session.Fail;
      hide Push;
      hide RStr;
      hide RU32;
      var r := new RBuf(p[1..]);
      var recipient := r.GetInt();
      if recipient != 0 || !chan.open {
        ok := Fail(DISC_PROTOCOL_ERROR, "bad channel");
        return;
      }
      ok := TakeData(r);
    }

    method TakeData(r: RBuf) returns (ok: bool)
      requires Valid() && RingOk()
      modifies r, `state, `drawn, `outDir, `writes, `hist, `inHead, `waiting, tx, pl, inRing
      ensures RingOk()
      ensures var (d, r2) := RStr(old(r.State()));
        Ret(Abs(), ok) == if r2.err then Session.Fail(env, old(Abs()), DISC_PROTOCOL_ERROR, "bad CHANNEL_DATA")
          else Ret(Push(old(Abs()), d), true)
    {
      hide RingOk;
      hide Session.Fail;
      hide Push;
      hide RStr;
      var d := r.GetStr();
      if r.err {
        ok := Fail(DISC_PROTOCOL_ERROR, "bad CHANNEL_DATA");
        return;
      }
      RingPush(d);
      ok := true;
    }

    method OnWindowAdjust(p: seq<byte>) returns (ok: bool)
      requires Valid() && p != []
      modifies `hist, `chan
      ensures Ret(Abs(), ok) == Session.OnWindowAdjust(old(Abs()), p)
    {
      hide RU32;
      var r := new RBuf(p[1..]);
      var recipient := r.GetInt();
      var add := r.GetInt();
      ok := true;
      if !r.err {
        Widen(add);
      }
    }

    method Widen(add: uint32)
      requires Valid()
      modifies `hist, `chan
      ensures Abs() == old(Abs()).(
        chan := old(chan).(window := Low32(old(chan).window + add)),
        hist := old(hist).(granted := old(hist).granted + add,
                           wrapped := old(hist).wrapped || old(chan).window + add >= TWO32))
    {
      hide Low32;
      hist := hist.(granted := hist.granted + add, wrapped := hist.wrapped || chan.window + add >= TWO32);
      chan := chan.(window := Low32(chan.window + add));
    }

    method OnChannelEof()
      requires Valid()
      modifies `chan
      ensures Abs() == old(Abs()).(chan := old(chan).(remoteEof := true))
    {
      chan := chan.(remoteEof := true);
    }

    method OnChannelClose() returns (ok: bool)
      requires Valid()
      modifies `state, `drawn, `outDir, `writes, `hist, `chan, tx, pl
      ensures Ret(Abs(), ok) == Session.OnChannelClose(env, old(Abs()))
    {
      hide Session.SendChannelReply;
      chan := chan.(closeRecv := true);
      if chan.open && !chan.closeSent {
        chan := chan.(closeSent := true);
        var _ := SendChannelReply(MSG_CHANNEL_CLOSE);
      }
      ok := true;
    }

    method OnOther() returns (ok: bool)
      requires Valid()
      modifies `state, `drawn, `outDir, `writes, `hist, tx, pl
      ensures Ret(Abs(), ok) == Session.OnOther(env, old(Abs()))
    {
      hide Session.SendPacket;
      var n := WriteNumber(pl, MSG_UNIMPLEMENTED, Low32(inDir.seqNo - 1));
      ok := SendPacket(pl[..n]);
    }

    // ---- dispatch ----

    method HandleTransport(p: seq<byte>) returns (ok: bool)
      requires Valid() && p != []
      modifies `state, `drawn, `outDir, `writes, `hist, `ignoreNextKexPacket, `next, `kex
      modifies `clientKexInit, `serverKexInit, `kexInitSent, `sessionId, `pend, `inDir, tx, pl
      ensures Ret(Abs(), ok) == Session.HandleTransport(env, old(Abs()), p)
    {
      hide Session.OnKexInit;
      hide Session.OnKexDhInit;
      hide Session.OnNewKeys;
      hide Session.OnServiceRequest;
      hide Session.OnOther;
      var msg := p[0];
      if msg == MSG_DISCONNECT {
        state := StClosed;
        ok := false;
      } else if 2 <= msg <= 4 || msg == 7 {
        ok := true;
      } else if msg == MSG_KEXINIT {
        ok := OnKexInit(p);
      } else if msg == MSG_KEXDH_INIT {
        ok := OnKexDhInit(p);
      } else if msg == MSG_NEWKEYS {
        ok := OnNewKeys();
      } else if msg == MSG_SERVICE_REQUEST {
        ok := OnServiceRequest(p);
      } else {
        ok := OnOther();
      }
    }

    method HandleService(p: seq<byte>) returns (ok: bool)
      requires Valid() && RingOk() && p != []
      modifies `state, `drawn, `outDir, `writes, `hist, `login, `chan, `inHead, `waiting, tx, pl, inRing
      ensures RingOk() && Ret(Abs(), ok) == Session.HandleService(env, old(Abs()), p)
    {
      hide RingOk;
      hide Session.OnUserauth;
      hide Session.OnGlobalRequest;
      hide Session.OnChannelOpen;
      hide Session.OnChannelRequest;
      hide Session.OnChannelData;
      hide Session.OnWindowAdjust;
      hide Session.OnChannelClose;
      hide Session.OnOther;
      var msg := p[0];
      ok := true;
      if msg == MSG_USERAUTH_REQUEST {
        ok := OnUserauth(p);
      } else if msg == MSG_GLOBAL_REQUEST {
        ok := OnGlobalRequest(p);
      } else if msg == MSG_CHANNEL_OPEN {
        ok := OnChannelOpen(p);
      } else if msg == MSG_CHANNEL_REQUEST {
        ok := OnChannelRequest(p);
      } else if msg == MSG_CHANNEL_DATA {
        ok := OnChannelData(p);
      } else if msg == MSG_EXTENDED_DATA {
      } else if msg == MSG_WINDOW_ADJUST {
        ok := OnWindowAdjust(p);
      } else if msg == MSG_CHANNEL_EOF {
        OnChannelEof();
      } else if msg == MSG_CHANNEL_CLOSE {
        ok := OnChannelClose();
      } else {
        ok := OnOther();
      }
    }

    method DropGuess()
      requires Valid()
      modifies `ignoreNextKexPacket, `hist
      ensures Abs() == old(Abs()).(ignoreNext := false, hist := old(hist).(dropped := old(hist).dropped + 1))
    {
      ignoreNextKexPacket := false;
      hist := hist.(dropped := hist.dropped + 1);
    }

    method HandlePacket(p: seq<byte>) returns (ok: bool)
      requires Valid() && RingOk()
      modifies `state, `drawn, `outDir, `writes, `hist, `ignoreNextKexPacket, `next, `kex
      modifies `clientKexInit, `serverKexInit, `kexInitSent, `sessionId, `pend, `inDir
      modifies `login, `chan, `inHead, `waiting, tx, pl, inRing
      ensures RingOk() && Ret(Abs(), ok) == Session.HandlePacket(env, old(Abs()), p)
    {
      hide RingOk;
      hide Session.Fail;
      hide Session.HandleTransport;
      hide Session.HandleService;
      if p == [] {
        ok := Fail(DISC_PROTOCOL_ERROR, "empty payload");
        return;
      }
      if ignoreNextKexPacket && 30 <= p[0] <= 49 {
        DropGuess();
        ok := true;
        return;
      }
      if state.StVersion? {
        ok := Fail(DISC_PROTOCOL_ERROR, "packet before version");
        return;
      }
      if p[0] < 50 {
        ok := HandleTransport(p);
      } else {
        ok := HandleService(p);
      }
    }

    // ---- input assembly ----

    /** The version line at the front of the buffer. */
    method TakeLine() returns (r: int)
      requires Valid() && ConnOk(View()) && state.StVersion?
      modifies `state, `drawn, `outDir, `writes, `hist, `kex, `clientVersion, `serverKexInit, `kexInitSent, `rxLen, tx, pl, rx
      ensures (View(), r) == VersionLine(env, old(View()))
    {
      hide Session.Disconnect;
      hide TakeVersion;
      hide LfAt;
      hide LineOf;
      hide IsSshLine;
      hide IsSsh2;
      var i := FindLf();
      if i == rxLen {
        r := 0;
        if rxLen >= 255 {
          Disconnect(DISC_PROTOCOL_ERROR, "version line too long");
          r := -1;
        }
        return;
      }
      var line := LineBefore(i);
      if !IsSshLine(line) {
        PassLine(i);
        r := 1;
      } else if !IsSsh2(line) {
        Disconnect(DISC_PROTOCOL_ERROR, "only SSH 2.0 is supported");
        r := -1;
      } else {
        r := AcceptLine(i, line);
      }
    }

    method PassLine(i: nat)
      requires Valid() && i < rxLen
      modifies `rxLen, rx
      ensures View() == old(View()).(buf := old(View()).buf[i + 1..])
    {
      SliceOfFront(rx[..], rxLen, i + 1, rxLen);
      DropFront(i + 1);
    }

    method AcceptLine(i: nat, line: seq<byte>) returns (r: int)
      requires Valid() && i < rxLen
      modifies `state, `drawn, `outDir, `writes, `hist, `kex, `clientVersion, `serverKexInit, `kexInitSent, `rxLen, tx, pl, rx
      ensures var t := TakeVersion(env, old(Abs()), line);
        View() == old(View()).(core := t.k, buf := old(View()).buf[i + 1..]) && r == if t.ok then 1 else -1
    {
      hide TakeVersion;
      PassLine(i);
      var ok := AcceptVersion(line);
      r := if ok then 1 else -1;
    }

    method FindLf() returns (i: nat)
      requires Valid()
      ensures i == LfAt(rx[..rxLen], 0)
    {
      i := 0;
      while i < rxLen && rx[i] != LF
        invariant i <= rxLen && LfAt(rx[..rxLen], 0) == LfAt(rx[..rxLen], i)
      {
        i := i + 1;
      }
    }

    method LineBefore(i: nat) returns (line: seq<byte>)
      requires Valid() && i < rxLen
      ensures line == LineOf(rx[..rxLen], i)
    {
      var lineLen := i;
      if lineLen > 0 && rx[lineLen - 1] == CR {
        lineLen := lineLen - 1;
      }
      line := rx[..lineLen];
      assert line == rx[..rxLen][..lineLen];
    }

    /** Moves what is left to the front of the buffer. */
    method DropFront(n: nat)
      requires Valid() && n <= rxLen
      modifies `rxLen, rx
      ensures rx[..rxLen] == old(rx[n..rxLen])
    {
      ghost var was := rx[..];
      MemMove(rx, 0, n, rxLen - n);
      assert rx[..][..rxLen - n] == was[n..rxLen];
      rxLen := rxLen - n;
    }

    method AcceptVersion(line: seq<byte>) returns (ok: bool)
      requires Valid()
      modifies `state, `drawn, `outDir, `writes, `hist, `kex, `clientVersion, `serverKexInit, `kexInitSent, tx, pl
      ensures Ret(Abs(), ok) == TakeVersion(env, old(Abs()), line)
    {
      hide Session.SendKexInit;
      NoteVersion(line);
      ok := true;
      if !kexInitSent {
        ok := SendKexInit();
      }
    }

    method NoteVersion(line: seq<byte>)
      requires Valid()
      modifies `clientVersion, `state, `kex
      ensures Abs() == old(Abs()).(version := line, state := StKex, kex := KxWaitKexInit)
    {
      clientVersion := line;
      state := StKex;
      kex := KxWaitKexInit;
    }

    /** The length of the packet at the front; in an active direction its first block is decrypted for that. */
    method LearnLength() returns (res: RxResult)
      requires Valid() && RxOk(RxOf(View()))
      modifies `inDir, `rxHaveLen, `rxPktLen, rx
      ensures var (x, h) := RxHead(env, RxOf(old(View())));
        res == h && View() == WithRx(old(Abs()), x)
    {
      hide RxHead;
      hide Crypt;
      hide GetU32;
      hide LengthOk;
      HeadIs(env, RxOf(View()));
      if rxHaveLen {
        return HaveLength;
      }
      if rxLen < (if inDir.active then 16 else 4) {
        return NeedMore;
      }
      DecryptFirst();
      var good := ReadLength();
      res := if good then HaveLength else BadLength;
    }

    method ReadLength() returns (good: bool)
      requires Valid() && rxLen >= 4 && !rxHaveLen
      modifies `rxHaveLen, `rxPktLen
      ensures rxPktLen == GetU32(rx[..rxLen]) && good == LengthOk(inDir, rxPktLen) && rxHaveLen == good
    {
      hide GetU32;
      rxPktLen := GetU32(rx[..rxLen]);
      var blk := if inDir.active then 16 else 8;
      good := !(rxPktLen < 5 || rxPktLen > MAX_PACKET - 4 || (4 + rxPktLen) % blk != 0);
      if good {
        rxHaveLen := true;
      }
    }

    method DecryptFirst()
      requires Valid() && rxLen >= FirstOf(inDir)
      modifies `inDir, rx
      ensures Abs() == old(Abs()).(inDir := inDir)
      ensures inDir == if old(inDir).active then old(inDir).(pos := old(inDir).pos + 16) else old(inDir)
      ensures rx[..rxLen] == (var b := old(rx[..rxLen]);
        if old(inDir).active then Crypt(env, old(inDir).keys, old(inDir).pos, b[..16]) + b[16..] else b)
    {
      hide Crypt;
      if inDir.active {
        ghost var b := rx[..];
        AesCtr(inDir.keys, inDir.pos, rx, 0, 16);
        inDir := inDir.(pos := inDir.pos + 16);
        assert b[..rxLen][..16] == b[0..16] && b[..rxLen][16..] == b[16..][..rxLen - 16];
        assert rx[..rxLen] == rx[0..16] + rx[16..][..rxLen - 16];
      }
    }

    method DecryptRest(total: nat)
      requires Valid() && RxOk(RxOf(View())) && rxHaveLen && total == 4 + rxPktLen && rxLen >= Need(RxOf(View()))
      modifies `inDir, rx
      ensures Abs() == old(Abs()).(inDir := inDir)
      ensures inDir == if old(inDir).active then old(inDir).(pos := old(inDir).pos + (total - 16)) else old(inDir)
      ensures rx[..rxLen] == RxPlain(env, RxOf(old(View())))
    {
      hide Crypt;
      if inDir.active {
        ghost var b := rx[..];
        AesCtr(inDir.keys, inDir.pos, rx, 16, total);
        inDir := inDir.(pos := inDir.pos + (total - 16));
        ThreeParts(b, rxLen, total);
        ThreeParts(rx[..], rxLen, total);
      }
    }

    /** Compares the whole MAC whatever the first differing byte is. */
    method SameMac(mac: seq<byte>, at: nat) returns (same: bool)
      requires at + |mac| <= rx.Length
      ensures same <==> mac == rx[at..at + |mac|]
    {
      var diff: byte := 0;
      var i := 0;
      while i < |mac|
        invariant 0 <= i <= |mac|
        invariant diff == 0 <==> mac[..i] == rx[at..at + i]
      {
        XorZero(mac[i], rx[at + i]);
        OrZero(diff, Xor(mac[i], rx[at + i]));
        assert mac[..i + 1] == mac[..i] + [mac[i]] && rx[at..at + (i + 1)] == rx[at..at + i] + [rx[at + i]];
        diff := Or(diff, Xor(mac[i], rx[at + i]));
        i := i + 1;
      }
      assert mac[..i] == mac;
      same := diff == 0;
    }

    /** The rest of the packet decrypted in place, its MAC and its padding checked. Nothing moves yet. */
    method OpenBody(total: nat, need: nat) returns (res: RxResult)
      requires Valid() && RxOk(RxOf(View())) && rxHaveLen && rxLen >= need
      requires total == 4 + rxPktLen && need == Need(RxOf(View()))
      modifies `inDir, rx
      ensures Abs() == old(Abs()).(inDir := inDir)
      ensures var (x, h) := RxBody(env, RxOf(old(View())));
        && res == h && inDir == x.dir
        && x.buf == (if h.Got? then rx[need..rxLen] else rx[..rxLen])
        && x.pktLen == rxPktLen && (!h.Got? ==> x.haveLen)
    {
      hide RxPlain;
      hide RxBody;
      hide Mac;
      ghost var x := RxOf(View());
      DecryptRest(total);
      res := Judge(total, need, x);
    }

    /** The checks, once all of the packet is plain. */
    method Judge(total: nat, need: nat, ghost x: Rx) returns (res: RxResult)
      requires Valid() && RxOk(x) && x.haveLen && |x.buf| == rxLen >= need
      requires x.pktLen == rxPktLen && total == 4 + rxPktLen && need == Need(x)
      requires inDir == (if x.dir.active then x.dir.(pos := x.dir.pos + (total - 16)) else x.dir)
      requires rx[..rxLen] == RxPlain(env, x)
      modifies `inDir
      ensures Abs() == old(Abs()).(inDir := inDir)
      ensures var (y, h) := RxBody(env, x);
        && res == h && inDir == y.dir
        && y.buf == (if h.Got? then rx[need..rxLen] else rx[..rxLen])
        && y.pktLen == rxPktLen && (!h.Got? ==> y.haveLen)
    {
      hide RxPlain;
      hide RxBody;
      hide Mac;
      var same := CheckMac(total, need);
      MacMoves(env, x.dir, inDir, rx[..rxLen][..total]);
      BodyIs(env, x, same);
      if !same {
        return BadMac;
      }
      res := CheckPadding();
      if res.Got? {
        CountIn();
        SliceOfFront(rx[..], rxLen, need, rxLen);
      }
    }

    method CountIn()
      requires Valid()
      modifies `inDir
      ensures Abs() == old(Abs()).(inDir := inDir)
      ensures inDir == old(inDir).(seqNo := Low32(old(inDir).seqNo + 1))
    {
      inDir := inDir.(seqNo := Low32(inDir.seqNo + 1));
    }

    method CheckMac(total: nat, need: nat) returns (same: bool)
      requires Valid() && need <= rxLen && need == total + MacLenOf(inDir)
      ensures same <==> inDir.active ==> Mac(env, inDir, rx[..rxLen][..total]) == rx[..rxLen][total..need]
    {
      hide Hmac;
      hide PutU32;
      same := true;
      if inDir.active {
        var mac := Hmac(env, inDir.keys.macType, inDir.keys.macKey, PutU32(inDir.seqNo) + rx[..total]);
        same := SameMac(mac, total);
        SliceOfFront(rx[..], rxLen, 0, total);
        SliceOfFront(rx[..], rxLen, total, need);
      }
    }

    method CheckPadding() returns (res: RxResult)
      requires Valid() && 5 <= rxPktLen && rxLen >= 4 + rxPktLen
      ensures res == (var buf := rx[..rxLen];
        if buf[4] < 4 || buf[4] + 1 > rxPktLen then BadPadding else Got(buf[5..5 + (rxPktLen - 1 - buf[4])]))
    {
      var padLen := rx[4];
      if padLen < 4 || padLen + 1 > rxPktLen {
        return BadPadding;
      }
      var payloadLen := rxPktLen - 1 - padLen;
      SliceOfFront(rx[..], rxLen, 5, 5 + payloadLen);
      res := Got(rx[5..5 + payloadLen]);
    }

    method Deliver(p: seq<byte>) returns (ok: bool)
      requires Valid() && RingOk()
      modifies `state, `drawn, `outDir, `writes, `hist, `ignoreNextKexPacket, `next, `kex
      modifies `clientKexInit, `serverKexInit, `kexInitSent, `sessionId, `pend, `inDir
      modifies `login, `chan, `inHead, `waiting, tx, pl, inRing
      ensures RingOk() && Ret(Abs(), ok) == Session.Deliver(env, old(Abs()), p)
    {
      hide RingOk;
      hide Session.HandlePacket;
      hist := hist.(handled := hist.handled + [p]);
      ok := HandlePacket(p);
    }

    /** A packet whose length is known: handled if all of it has arrived, then moved out of the buffer. */
    method TakeBody() returns (r: int)
      requires Valid() && RingOk() && RxOk(RxOf(View())) && rxHaveLen && !state.StVersion?
      modifies this, tx, pl, rx, inRing
      ensures RingOk()
      ensures (View(), r) == AfterStep(env, old(Abs()), RxBody(env, RxOf(old(View()))))
    {
      hide RingOk;
      hide RxBody;
      hide AfterStep;
      var total := 4 + rxPktLen;
      var need := total + if inDir.active then MacLen(inDir.keys.macType) else 0;
      if rxLen < need {
        AfterTooLittle(env, RxOf(View()), Abs());
        return 0;
      }
      ghost var k, s := Abs(), RxBody(env, RxOf(View()));
      var res := OpenBody(total, need);
      AfterMoves(env, k, s);
      r := Conclude(res, need, s);
    }

    /** What becomes of an opened packet. */
    method Conclude(res: RxResult, need: nat, ghost s: (Rx, RxResult)) returns (r: int)
      requires Valid() && RingOk() && !state.StVersion? && need <= rxLen && rxHaveLen
      requires RxOk(s.0) && res == s.1 && (res.BadMac? || res.BadPadding? || res.Got?) && inDir == s.0.dir
      requires s.0.buf == (if res.Got? then rx[need..rxLen] else rx[..rxLen])
      requires s.0.pktLen == rxPktLen && s.0.haveLen == !res.Got?
      modifies this, tx, pl, rx, inRing
      ensures RingOk()
      ensures (View(), r) == AfterStep(env, old(Abs()), s)
    {
      hide RingOk;
      hide RxOk;
      hide Session.Disconnect;
      hide Session.Deliver;
      r := -1;
      if res.BadMac? {
        Disconnect(DISC_MAC_ERROR, "MAC mismatch");
      } else if res.BadPadding? {
        Disconnect(DISC_PROTOCOL_ERROR, "bad padding");
      } else {
        r := HandleBody(res.payload, need);
      }
    }

    method HandleBody(p: seq<byte>, need: nat) returns (r: int)
      requires Valid() && RingOk() && need <= rxLen
      modifies this, tx, pl, rx, inRing
      ensures RingOk()
      ensures var d := Session.Deliver(env, old(Abs()), p);
        && View() == Conn(d.k, old(rx[need..rxLen]), false, old(rxPktLen))
        && r == if !d.ok || d.k.state.StClosed? then -1 else 1
    {
      hide RingOk;
      hide Session.Deliver;
      var ok := Deliver(p);
      DropFront(need);
      rxHaveLen := false;
      r := if !ok || state.StClosed? then -1 else 1;
    }

    method TakePacket() returns (r: int)
      requires Valid() && RingOk() && ConnOk(View()) && !state.StVersion?
      modifies this, tx, pl, rx, inRing
      ensures RingOk()
      ensures (View(), r) == Packet(env, old(View()))
    {
      hide RingOk;
      hide RxHead;
      hide RxBody;
      hide Session.Disconnect;
      hide Session.Deliver;
      var h := LearnLength();
      if h.NeedMore? {
        r := 0;
      } else if h.BadLength? {
        Disconnect(DISC_PROTOCOL_ERROR, "bad packet length");
        r := -1;
      } else {
        r := TakeBody();
      }
    }

    method TryProcessOne() returns (r: int)
      requires Valid() && RingOk() && ConnOk(View())
      modifies this, tx, pl, rx, inRing
      ensures RingOk()
      ensures (View(), r) == TryOne(env, old(View()))
    {
      hide RingOk;
      hide VersionLine;
      hide Packet;
      if state.StClosed? {
        r := -1;
      } else if state.StVersion? {
        r := TakeLine();
      } else {
        r := TakePacket();
      }
    }
  }
}
