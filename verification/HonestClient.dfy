/** The other side of a key exchange, after the RFCs alone: what an honest client sends, reads and computes (RFC 4253
    sections 7.1, 7.2 and 8, RFC 8731 section 3). Its message layouts, its tables and its hash are its own; what it shares
    with the server is the wire format of single items and the expansion of keys. */
module HonestClient {
  import opened Bytes
  import opened Wire
  import opened Algorithms
  import opened Environment
  import opened RecordLayer
  import opened KeySchedule

  /** What the client keeps: the version line it sent, the two KEXINITs of this exchange as sent and as received, every
      exchange hash so far, and the keys it will open and seal with. */
  datatype Client = Client(version: seq<byte>, kexInit: seq<byte>, serverKexInit: seq<byte>,
                           hashes: seq<Bytes32>, recv: Keys, send: Keys)

  /** What follows the cookie of a KEXINIT: ten name lists, a flag, a reserved word. */
  const KEXINIT_SHAPE := [NAME, NAME, NAME, NAME, NAME, NAME, NAME, NAME, NAME, NAME, FLAG, WORD]

  function NameLists(kexInit: seq<byte>): (r: Option<seq<Item>>)
    ensures r.Some? ==> |r.value| == 12
  {
    if |kexInit| < 17 then None
    else
      var (got, end) := RAll(RInit(kexInit[17..]), KEXINIT_SHAPE);
      if end.err then None else Some(got)
  }

  /** The i-th algorithm: the first of the client's list that the server has too. */
  function Agreed(mine: seq<Item>, theirs: seq<Item>, i: nat): Option<seq<byte>>
    requires i < |mine| && i < |theirs|
  {
    FirstCommon(Split(Text(mine[i])), Split(Text(theirs[i])))
  }

  /** RFC 4344 section 4: key lengths in bytes. */
  function CipherKey(name: seq<byte>): Option<nat> {
    if name == Ascii("aes128-ctr") then Some(16)
    else if name == Ascii("aes192-ctr") then Some(24)
    else if name == Ascii("aes256-ctr") then Some(32)
    else None
  }

  /** RFC 6668 section 2: which hash the MAC uses. */
  function MacHash(name: seq<byte>): Option<MacType> {
    if name == Ascii("hmac-sha2-256") then Some(Sha256)
    else if name == Ascii("hmac-sha2-512") then Some(Sha512)
    else None
  }

  function MacKey(t: MacType): nat {
    match t
    case Sha256 => 32
    case Sha512 => 64
  }

  /** H of RFC 4253 section 8: both version lines, both KEXINITs, the host key, both public values, the secret. */
  function ClientHash(env: Env, cl: Client, hostKey: seq<byte>, qc: seq<byte>, qs: seq<byte>, shared: seq<byte>): Bytes32 {
    env.sha256(Encoded([IStr(cl.version), IStr(Ascii("SSH-2.0-UefiSshShell_0.1")), IStr(cl.kexInit), IStr(cl.serverKexInit),
                        IStr(hostKey), IStr(qc), IStr(qs), IMpint(shared)]))
  }

  /** The keys of one direction, by their letters in RFC 4253 section 7.2. */
  function ClientKeys(env: Env, shared: seq<byte>, h: seq<byte>, sid: seq<byte>, iv: char, enc: char, mac: char,
    encLen: nat, t: MacType): Keys
    requires iv as int < 256 && enc as int < 256 && mac as int < 256
  {
    var secret := Encoded([IMpint(shared)]);
    Keys(Derived(env, secret, h, enc as int, sid, encLen), Derived(env, secret, h, iv as int, sid, 16),
         Derived(env, secret, h, mac as int, sid, MacKey(t)), t)
  }

  const KEY_TYPE := Ascii("ssh-ed25519")

  function DhInit(env: Env, secret: Bytes32): seq<byte> {
    [30] + Encoded([IStr(DhPublic(env, secret))])
  }

  /** What the client does with a KEXDH_REPLY; None is a client that gives up: on a message of another shape, on a host key it
      does not know, on a signature of anything but its own hash, or with nothing in common. */
  function Finish(env: Env, cl: Client, secret: Bytes32, reply: seq<byte>): Option<Client> {
    if reply == [] || reply[0] != 31 then None
    else
      var (got, end) := RAll(RInit(reply[1..]), [NAME, NAME, NAME]);
      var (hostKey, qs, signature) := (Text(got[0]), Text(got[1]), Text(got[2]));
      if end != Cursor(reply[1..], |reply| - 1, false) || |qs| != 32 then None
      else
        var shared := DhShared(env, secret, qs);
        if shared.None? || hostKey != Encoded([IStr(KEY_TYPE), IStr(env.hostPub)]) then None
        else FinishWith(env, cl, DhPublic(env, secret), hostKey, qs, signature, shared.value)
  }

  function FinishWith(env: Env, cl: Client, qc: seq<byte>, hostKey: seq<byte>, qs: seq<byte>, signature: seq<byte>, shared: seq<byte>):
    Option<Client>
  {
    var h := ClientHash(env, cl, hostKey, qc, qs, shared);
    var (mine, theirs) := (NameLists(cl.kexInit), NameLists(cl.serverKexInit));
    if signature != Encoded([IStr(KEY_TYPE), IStr(env.sign(h))]) || mine.None? || theirs.None? then None
    else InstallKeys(env, cl, mine.value, theirs.value, h, shared)
  }

  /** Ciphers are the third and fourth list of a KEXINIT, MACs the fifth and sixth, client to server first. */
  function InstallKeys(env: Env, cl: Client, mine: seq<Item>, theirs: seq<Item>, h: Bytes32, shared: seq<byte>): Option<Client>
    requires |mine| == |theirs| == 12
  {
    var sid := if cl.hashes == [] then h else cl.hashes[0];
    var (out, back) := (Suite(mine, theirs, 2, 4), Suite(mine, theirs, 3, 5));
    if out.None? || back.None? then None
    else
      Some(cl.(hashes := cl.hashes + [h],
               send := ClientKeys(env, shared, h, sid, 'A', 'C', 'E', out.value.0, out.value.1),
               recv := ClientKeys(env, shared, h, sid, 'B', 'D', 'F', back.value.0, back.value.1)))
  }

  /** Cipher key length and MAC of one direction. */
  function Suite(mine: seq<Item>, theirs: seq<Item>, cipher: nat, mac: nat): Option<(nat, MacType)>
    requires |mine| == |theirs| == 12 && cipher < 12 && mac < 12
  {
    var (c, m) := (Agreed(mine, theirs, cipher), Agreed(mine, theirs, mac));
    if c.None? || m.None? then None
    else
      var (n, t) := (CipherKey(c.value), MacHash(m.value));
      if n.None? || t.None? then None else Some((n.value, t.value))
  }

  // ---- where the server's functions come to the same ----

  lemma {:induction false} StringsFirst(r: Cursor, n: nat)
    requires n > 0
    ensures var (s, r1) := RStr(r);
      var (rest, end) := RStrs(r1, n - 1);
      RStrs(r, n) == ([s] + rest, end)
    decreases n
  {
    hide RStr;
    if n == 1 {
      assert [] + [RStr(r).0] == [RStr(r).0] + [];
    } else {
      StringsFirst(r, n - 1);
      var (s, r1) := RStr(r);
      var (rest, end) := RStrs(r1, n - 2);
      var (t, r2) := RStr(end);
      Associates([s], rest, [t]);
    }
  }

  function Names(n: nat): (s: seq<Item>)
    ensures |s| == n
  {
    seq(n, _ => NAME)
  }

  function AsItems(l: seq<seq<byte>>): (s: seq<Item>)
    ensures |s| == |l|
  {
    seq(|l|, i requires 0 <= i < |l| => IStr(l[i]))
  }

  /** n strings read as items are n calls of RStr. */
  lemma {:induction false} StringsAsItems(r: Cursor, n: nat, tail: seq<Item>)
    ensures var (l, r1) := RStrs(r, n);
      var (got, end) := RAll(r1, tail);
      RAll(r, Names(n) + tail) == (AsItems(l) + got, end)
    decreases n
  {
    hide RStr;
    if n == 0 {
      assert Names(0) + tail == tail;
      assert AsItems([]) + RAll(r, tail).0 == RAll(r, tail).0;
    } else {
      var (s, r1) := RStr(r);
      StringsFirst(r, n);
      StringsAsItems(r1, n - 1, tail);
      assert (Names(n) + tail)[0] == NAME && (Names(n) + tail)[1..] == Names(n - 1) + tail;
      var (rest, end) := RStrs(r1, n - 1);
      assert AsItems([s] + rest) == [IStr(s)] + AsItems(rest);
      Associates([IStr(s)], AsItems(rest), RAll(end, tail).0);
    }
  }

  /** The lists of a KEXINIT at the places the client expects them. */
  lemma ListsAre(p: seq<byte>)
    requires |p| >= 17
    ensures NameLists(p).Some? <==> ParseKex(p[17..]).Some?
    ensures ParseKex(p[17..]).Some? ==>
      var (n, l) := (NameLists(p).value, ParseKex(p[17..]).value);
      && Text(n[0]) == l.kex && Text(n[1]) == l.hostKey && Text(n[2]) == l.encCs && Text(n[3]) == l.encSc
      && Text(n[4]) == l.macCs && Text(n[5]) == l.macSc && Text(n[6]) == l.compCs && Text(n[7]) == l.compSc
      && n[10] == IByte(l.firstFollows)
  {
    hide RStr;
    hide RByte;
    hide RU32;
    var r := RInit(p[17..]);
    var tail := [IByte(0), IU32(0)];
    StringsAsItems(r, 10, tail);
    assert Names(10) + tail == KEXINIT_SHAPE;
    var (l, r1) := RStrs(r, 10);
    TwoReads(r1);
  }

  lemma TwoReads(r: Cursor)
    ensures var (b, r1) := RByte(r);
      var (n, r2) := RU32(r1);
      RAll(r, [IByte(0), IU32(0)]) == ([IByte(b), IU32(n)], r2)
  {
    hide RByte;
    hide RU32;
    var like: seq<Item> := [IByte(0), IU32(0)];
    var (b, r1) := RByte(r);
    var (n, r2) := RU32(r1);
    assert like[1..] == [IU32(0)] && [IU32(0)][1..] == [];
    assert RAll(r2, []) == ([], r2);
    assert RAll(r1, [IU32(0)]) == ([IU32(n)] + [], r2);
    assert [IByte(b)] + ([IU32(n)] + []) == [IByte(b), IU32(n)];
    assert RItem(r, like[0]) == (IByte(b), r1);
  }

  lemma SecretIs(shared: seq<byte>)
    requires |shared| <= 32
    ensures Encoded([IMpint(shared)]) == Flat(IMpint(shared)) == MpintOf(shared)
  {
    hide MpintBody;
    hide Str;
    var w := WState([], 4 + 33, false);
    StripZerosValue(shared);
    SecretFits(w, shared);
    WItemEncodes(w, IMpint(shared));
    assert [] + Flat(IMpint(shared)) == Flat(IMpint(shared)) + [];
    EncodedOne(IMpint(shared));
  }

  lemma SecretFits(w: WState, shared: seq<byte>)
    requires w == WState([], 4 + 33, false) && |StripZeros(shared)| <= 32
    ensures !WMpint(w, shared).err
  {
    hide PutU32;
    hide StripZeros;
  }

  /** The client's hash and the server's, given the same inputs. */
  lemma HashIs(env: Env, cl: Client, hostKey: seq<byte>, qc: seq<byte>, qs: seq<byte>, shared: seq<byte>)
    requires |shared| <= 32
    ensures ClientHash(env, cl, hostKey, qc, qs, shared)
      == ExchangeHash(env, cl.version, SERVER_VERSION, cl.kexInit, cl.serverKexInit, hostKey, qc, qs, shared)
  {
    hide Encoded;
    hide MpintOf;
    hide Str;
    hide MpintBody;
    SecretIs(shared);
    EncodedEight([IStr(cl.version), IStr(Ascii("SSH-2.0-UefiSshShell_0.1")), IStr(cl.kexInit), IStr(cl.serverKexInit),
                  IStr(hostKey), IStr(qc), IStr(qs), IMpint(shared)]);
  }

  lemma BlobIs(env: Env)
    ensures HostKeyBlob(env) == Encoded([IStr(KEY_TYPE), IStr(env.hostPub)])
  {
    hide Encoded;
    hide Str;
    EncodedTwo(IStr(KEY_TYPE), IStr(env.hostPub));
  }

  /** The server cuts its long derivations to what the client derives. */
  lemma KeysAre(env: Env, shared: seq<byte>, h: seq<byte>, sid: seq<byte>, n: nat, t: MacType)
    requires |shared| <= 32 && n <= 32
    ensures CutKeys(env, MpintOf(shared), h, sid, C2S, n, t) == ClientKeys(env, shared, h, sid, 'A', 'C', 'E', n, t)
    ensures CutKeys(env, MpintOf(shared), h, sid, S2C, n, t) == ClientKeys(env, shared, h, sid, 'B', 'D', 'F', n, t)
  {
    hide CutKeys;
    hide Derived;
    hide MpintOf;
    hide Encoded;
    SecretIs(shared);
    CutIsExact(env, MpintOf(shared), h, sid, C2S, n, t);
    CutIsExact(env, MpintOf(shared), h, sid, S2C, n, t);
  }

  /** Whatever both sides can choose, they make the same of it. */
  lemma TablesAgree(cipher: seq<byte>, mac: seq<byte>)
    ensures cipher in ENC_NAMES ==> CipherKey(cipher) == Some(EncKeyLen(cipher) as nat)
    ensures mac in MAC_NAMES ==> MacHash(mac) == Some(MacTypeOf(mac))
  {
    assert Ascii("hmac-sha2-256")[10] != Ascii("hmac-sha2-512")[10];
  }

  lemma {:induction false} CommonIsOurs(cs: seq<seq<byte>>, ss: seq<seq<byte>>)
    ensures FirstCommon(cs, ss).Some? ==> FirstCommon(cs, ss).value in ss
    decreases |cs|
  {
    if cs != [] {
      CommonIsOurs(cs[1..], ss);
    }
  }

  /** The server's loop over two lists and the rule of the RFC. */
  lemma PickIs(list: seq<byte>, names: seq<seq<byte>>)
    requires GoodNames(names)
    ensures Pick(list, Join(names)) == FirstCommon(Split(list), names) && Split(Join(names)) == names
    ensures Pick(list, Join(names)).Some? ==> Pick(list, Join(names)).value in names
  {
    hide Split;
    hide Join;
    hide Entries;
    SplitJoin(names);
    PickMeetsRfc(list, Join(names));
    CommonIsOurs(Split(list), names);
  }
}
