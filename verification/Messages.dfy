/** The messages the server writes, each into the caller's payload buffer through a writer, and the reads that take the
    longer ones of the client apart. */
module Messages {
  import opened Bytes
  import opened Wire
  import opened Algorithms
  import opened Environment
  import opened KeySchedule
  import opened Session

  // ---- short messages ----

  method WriteOne(pl: array<byte>, msg: byte) returns (n: nat)
    requires pl.Length == PL_BUF
    modifies pl
    ensures n <= PL_BUF && pl[..n] == [msg]
  {
    var b := new WBuf(pl, PL_BUF);
    b.PutByte(msg);
    n := b.len;
  }

  method WriteNumber(pl: array<byte>, msg: byte, v: uint32) returns (n: nat)
    requires pl.Length == PL_BUF
    modifies pl
    ensures n <= PL_BUF && pl[..n] == [msg] + PutU32(v)
  {
    hide PutU32;
    var b := new WBuf(pl, PL_BUF);
    b.PutByte(msg);
    b.PutInt(v);
    n := b.len;
  }

  method WriteDisconnect(pl: array<byte>, reason: uint32, note: string) returns (n: nat)
    requires pl.Length == PL_BUF && |note| <= 1000
    modifies pl
    ensures n <= PL_BUF && pl[..n] == DisconnectMsg(reason, note)
  {
    hide PutU32;
    hide Str;
    var b := new WBuf(pl, PL_BUF);
    b.PutByte(MSG_DISCONNECT);
    b.PutInt(reason);
    b.PutStr(Ascii(note));
    b.PutStr([]);
    n := b.len;
  }

  method WriteServiceAccept(pl: array<byte>) returns (n: nat)
    requires pl.Length == PL_BUF
    modifies pl
    ensures n <= PL_BUF && pl[..n] == [MSG_SERVICE_ACCEPT] + Str(Ascii("ssh-userauth"))
  {
    hide Str;
    var b := new WBuf(pl, PL_BUF);
    b.PutByte(MSG_SERVICE_ACCEPT);
    b.PutStr(Ascii("ssh-userauth"));
    n := b.len;
  }

  method WriteAuthFailure(pl: array<byte>) returns (n: nat)
    requires pl.Length == PL_BUF
    modifies pl
    ensures n <= PL_BUF && pl[..n] == [MSG_USERAUTH_FAILURE] + Str(Ascii("password")) + [0]
  {
    hide Str;
    var b := new WBuf(pl, PL_BUF);
    b.PutByte(MSG_USERAUTH_FAILURE);
    b.PutStr(Ascii("password"));
    b.PutByte(0);
    n := b.len;
  }

  method WriteOpenConfirm(pl: array<byte>, sender: uint32) returns (n: nat)
    requires pl.Length == PL_BUF
    modifies pl
    ensures n <= PL_BUF && pl[..n] ==
      [MSG_CHANNEL_OPEN_CONFIRM] + PutU32(sender) + PutU32(0) + PutU32(LOCAL_WINDOW) + PutU32(LOCAL_MAXPKT)
  {
    hide PutU32;
    var b := new WBuf(pl, PL_BUF);
    b.PutByte(MSG_CHANNEL_OPEN_CONFIRM);
    b.PutInt(sender);
    b.PutInt(0);
    b.PutInt(LOCAL_WINDOW);
    b.PutInt(LOCAL_MAXPKT);
    n := b.len;
  }

  method WriteOpenFailure(pl: array<byte>, sender: uint32, code: uint32, note: string) returns (n: nat)
    requires pl.Length == PL_BUF && |note| <= 100
    modifies pl
    ensures n <= PL_BUF && pl[..n] ==
      [MSG_CHANNEL_OPEN_FAILURE] + PutU32(sender) + PutU32(code) + Str(Ascii(note)) + Str([])
  {
    hide PutU32;
    hide Str;
    var b := new WBuf(pl, PL_BUF);
    b.PutByte(MSG_CHANNEL_OPEN_FAILURE);
    b.PutInt(sender);
    b.PutInt(code);
    b.PutStr(Ascii(note));
    b.PutStr([]);
    n := b.len;
  }

  method WriteAdjust(pl: array<byte>, remote: uint32, consumed: uint32) returns (n: nat)
    requires pl.Length == PL_BUF
    modifies pl
    ensures n <= PL_BUF && pl[..n] == [MSG_WINDOW_ADJUST] + PutU32(remote) + PutU32(consumed)
  {
    hide PutU32;
    var b := new WBuf(pl, PL_BUF);
    b.PutByte(MSG_WINDOW_ADJUST);
    b.PutInt(remote);
    b.PutInt(consumed);
    n := b.len;
  }

  method WriteData(pl: array<byte>, remote: uint32, d: seq<byte>) returns (n: nat)
    requires pl.Length == PL_BUF && |d| <= DATA_CHUNK
    modifies pl
    ensures n <= PL_BUF && pl[..n] == [MSG_CHANNEL_DATA] + PutU32(remote) + Str(d)
  {
    hide PutU32;
    hide Str;
    var b := new WBuf(pl, PL_BUF);
    b.PutByte(MSG_CHANNEL_DATA);
    b.PutInt(remote);
    b.PutStr(d);
    assert !b.err;
    n := b.len;
  }

  method WriteExitStatus(pl: array<byte>, remote: uint32, status: uint32) returns (n: nat)
    requires pl.Length == PL_BUF
    modifies pl
    ensures n <= PL_BUF && pl[..n] ==
      [MSG_CHANNEL_REQUEST] + PutU32(remote) + Str(Ascii("exit-status")) + [0] + PutU32(status)
  {
    hide PutU32;
    hide Str;
    var b := new WBuf(pl, PL_BUF);
    b.PutByte(MSG_CHANNEL_REQUEST);
    b.PutInt(remote);
    b.PutStr(Ascii("exit-status"));
    b.PutByte(0);
    b.PutInt(status);
    n := b.len;
  }

  // ---- key exchange ----

  method WriteKexInit(pl: array<byte>, cookie: seq<byte>) returns (n: nat)
    requires pl.Length == PL_BUF && |cookie| == 16
    modifies pl
    ensures n <= PL_BUF && pl[..n] == KexInitMsg(cookie)
  {
    hide WItem;
    hide WBytes;
    hide WByte;
    hide WU32;
    hide WStr;
    hide WAll;
    var b := new WBuf(pl, PL_BUF);
    b.PutByte(MSG_KEXINIT);
    b.PutBytes(cookie);
    ghost var front := [MSG_KEXINIT] + cookie;
    assert b.State() == Shifted(front, WState([], PL_BUF - 17, false));
    PutLists(b);
    WAllShift(front, WState([], PL_BUF - 17, false), KexItems(OUR_LISTS));
    n := b.len;
  }

  /** The name lists of the server, a flag that no guess follows, and the reserved word. */
  method PutLists(b: WBuf)
    requires b.Valid()
    modifies b, b.p
    ensures b.Valid() && b.State() == WAll(old(b.State()), KexItems(OUR_LISTS))
  {
    hide WStr;
    hide WByte;
    hide WU32;
    ghost var w := b.State();
    b.PutStr(Join(KEX_NAMES));
    b.PutStr(Join(HOSTKEY_NAMES));
    b.PutStr(Join(ENC_NAMES));
    b.PutStr(Join(ENC_NAMES));
    b.PutStr(Join(MAC_NAMES));
    b.PutStr(Join(MAC_NAMES));
    b.PutStr(Join(COMP_NAMES));
    b.PutStr(Join(COMP_NAMES));
    b.PutStr([]);
    b.PutStr([]);
    b.PutByte(0);
    b.PutInt(0);
    TwelveItems(w, OUR_LISTS);
  }

  lemma TwelveItems(w: WState, l: KexLists)
    ensures WAll(w, KexItems(l)) ==
      (var w1 := WStr(WStr(WStr(WStr(w, l.kex), l.hostKey), l.encCs), l.encSc);
       var w2 := WStr(WStr(WStr(WStr(w1, l.macCs), l.macSc), l.compCs), l.compSc);
       WU32(WByte(WStr(WStr(w2, []), []), l.firstFollows), 0))
  {
    hide WStr;
    hide WByte;
    hide WU32;
    var s := KexItems(l);
    var a, b, c := s[..4], s[4..8], s[8..];
    assert s == a + (b + c);
    WAllAppend(w, a, b + c);
    WAllAppend(WAll(w, a), b, c);
    FourItems(w, a);
    FourItems(WAll(w, a), b);
    FourItems(WAll(WAll(w, a), b), c);
  }

  lemma FourItems(w: WState, s: seq<Item>)
    requires |s| == 4
    ensures WAll(w, s) == WItem(WItem(WItem(WItem(w, s[0]), s[1]), s[2]), s[3])
  {
    hide WItem;
    var s1, s2, s3 := s[1..], s[2..], s[3..];
    assert s1[1..] == s2 && s2[1..] == s3 && s3[1..] == [];
    var w1 := WItem(w, s[0]);
    var w2 := WItem(w1, s1[0]);
    var w3 := WItem(w2, s2[0]);
    assert WAll(w, s) == WAll(w1, s1) == WAll(w2, s2) == WAll(w3, s3) == WAll(WItem(w3, s3[0]), []);
  }

  /** The reply: host key, the server's public value, and the signature blob, whose length is written out as a number. */
  method WriteReply(pl: array<byte>, env: Env, ks: seq<byte>, qs: seq<byte>, h: seq<byte>) returns (n: nat)
    requires pl.Length == PL_BUF && ks == HostKeyBlob(env) && |qs| == 32
    modifies pl
    ensures n <= PL_BUF && pl[..n] == KexReply(env, qs, h)
  {
    hide PutU32;
    hide HostKeyBlob;
    hide KexReply;
    hide Str;
    BlobSize(env);
    var b := new WBuf(pl, PL_BUF);
    b.PutByte(MSG_KEXDH_REPLY);
    b.PutStr(ks);
    b.PutStr(qs);
    ghost var front := pl[..b.len];
    assert front == [MSG_KEXDH_REPLY] + Str(ks) + Str(qs);
    PutSignature(b, env.sign(h));
    ReplyIs(env, qs, h, front);
    n := b.len;
  }

  /** The signature blob behind what is already there. */
  method PutSignature(b: WBuf, sig: Bytes64)
    requires b.Valid() && !b.err && b.len + 87 <= b.cap
    modifies b, b.p
    ensures b.Valid() && !b.err && b.len == old(b.len) + 87
    ensures b.p[..b.len] == ((old(b.p[..b.len]) + PutU32(4 + 11 + 4 + 64)) + Str(Ascii("ssh-ed25519"))) + Str(sig)
  {
    hide PutU32;
    var name := Ascii("ssh-ed25519");
    assert |Str(name)| == 15 && |Str(sig)| == 68;
    hide Str;
    b.PutInt(4 + 11 + 4 + 64);
    b.PutStr(name);
    b.PutStr(sig);
  }

  lemma BlobSize(env: Env)
    ensures |HostKeyBlob(env)| == 51
  {
  }

  lemma ReplyIs(env: Env, qs: seq<byte>, h: seq<byte>, front: seq<byte>)
    requires front == [MSG_KEXDH_REPLY] + Str(HostKeyBlob(env)) + Str(qs)
    ensures ((front + PutU32(4 + 11 + 4 + 64)) + Str(Ascii("ssh-ed25519"))) + Str(env.sign(h)) == KexReply(env, qs, h)
  {
    hide PutU32;
    hide HostKeyBlob;
    var name, sig := Str(Ascii("ssh-ed25519")), Str(env.sign(h));
    assert |name + sig| == 4 + 11 + 4 + 64;
    Associates(front + PutU32(83), name, sig);
    Associates(front, PutU32(83), name + sig);
  }

  /** The shared secret as an mpint, in a buffer just large enough for any. */
  method MpintBytes(shared: Bytes32) returns (kMp: seq<byte>)
    ensures kMp == MpintOf(shared)
  {
    var a := new byte[4 + 33];
    var b := new WBuf(a, 4 + 33);
    b.PutMpint(shared);
    StripZerosValue(shared);
    assert !b.err;
    kMp := a[..b.len];
  }

  method HostKeyBytes(env: Env) returns (ks: seq<byte>)
    ensures ks == HostKeyBlob(env)
  {
    hide PutU32;
    hide Str;
    var a := new byte[4 + 11 + 4 + 32];
    var b := new WBuf(a, 4 + 11 + 4 + 32);
    b.PutStr(Ascii("ssh-ed25519"));
    b.PutStr(env.hostPub);
    ks := a[..b.len];
  }

  lemma RStrsNext(c: Cursor, n: nat, s: seq<byte>, r: Cursor)
    requires RStr(RStrs(c, n).1) == (s, r)
    ensures RStrs(c, n + 1) == (RStrs(c, n).0 + [s], r)
  {
  }

  /** What follows the cookie of a KEXINIT; nothing when any of the reads failed. */
  method ReadLists(body: seq<byte>) returns (l: Option<KexLists>)
    ensures l == ParseKex(body)
  {
    hide RStr;
    hide RByte;
    hide RU32;
    var r := new RBuf(body);
    ghost var c := r.State();
    var kex := r.GetStr();
    RStrsNext(c, 0, kex, r.State());
    var hostKey := r.GetStr();
    RStrsNext(c, 1, hostKey, r.State());
    var encCs := r.GetStr();
    RStrsNext(c, 2, encCs, r.State());
    var encSc := r.GetStr();
    RStrsNext(c, 3, encSc, r.State());
    var macCs := r.GetStr();
    RStrsNext(c, 4, macCs, r.State());
    var macSc := r.GetStr();
    RStrsNext(c, 5, macSc, r.State());
    var compCs := r.GetStr();
    RStrsNext(c, 6, compCs, r.State());
    var compSc := r.GetStr();
    RStrsNext(c, 7, compSc, r.State());
    var lang := r.GetStr();
    RStrsNext(c, 8, lang, r.State());
    var lang2 := r.GetStr();
    RStrsNext(c, 9, lang2, r.State());
    var firstFollows := r.GetByte();
    var reserved := r.GetInt();
    if r.err {
      return None;
    }
    l := Some(KexLists(kex, hostKey, encCs, encSc, macCs, macSc, compCs, compSc, firstFollows));
  }
}
