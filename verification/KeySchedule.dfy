/** Exchange hash and key derivation (RFC 4253 sections 7.2 and 8, RFC 8731 section 3). */
module KeySchedule {
  import opened Bytes
  import opened Wire
  import opened Algorithms
  import opened Environment
  import opened RecordLayer

  /** A value as an mpint with its length prefix, the form in which K enters every hash. */
  function MpintOf(k: seq<byte>): seq<byte> {
    WMpint(WState([], 4 + 33, false), k).data
  }

  // ---- key expansion ----

  /** K1 || K2 || ... || Kn of RFC 4253 section 7.2. */
  function Expand(env: Env, k: seq<byte>, h: seq<byte>, letter: byte, sid: seq<byte>, n: nat): (r: seq<byte>)
    ensures |r| == 32 * n
  {
    if n == 0 then []
    else if n == 1 then env.sha256(k + h + [letter] + sid)
    else
      var before := Expand(env, k, h, letter, sid, n - 1);
      before + env.sha256(k + h + before)
  }

  function Blocks(need: nat): (n: nat)
    ensures need <= 32 * n && n >= 1
  {
    if need == 0 then 1 else (need + 31) / 32
  }

  /** What deriving `need` bytes means. */
  function Derived(env: Env, k: seq<byte>, h: seq<byte>, letter: byte, sid: seq<byte>, need: nat): (r: seq<byte>)
    ensures |r| == need
  {
    Expand(env, k, h, letter, sid, Blocks(need))[..need]
  }

  /** The C function: a 96-byte scratch buffer filled 32 bytes at a time. */
  method DeriveKey(env: Env, k: seq<byte>, h: seq<byte>, letter: byte, sid: seq<byte>, need: nat) returns (out: seq<byte>)
    requires need <= 96
    ensures out == Derived(env, k, h, letter, sid, need)
  {
    var tmp := new byte[96];
    var first := env.sha256(k + h + [letter] + sid);
    forall i | 0 <= i < 32 {
      tmp[i] := first[i];
    }
    var have := 32;
    assert tmp[..have] == Expand(env, k, h, letter, sid, 1);
    while have < need
      invariant have % 32 == 0 && 32 <= have <= 96
      invariant have <= 32 * Blocks(need)
      invariant tmp[..have] == Expand(env, k, h, letter, sid, have / 32)
    {
      var next := env.sha256(k + h + tmp[..have]);
      ghost var before := tmp[..have];
      forall i | 0 <= i < 32 {
        tmp[have + i] := next[i];
      }
      have := have + 32;
      assert tmp[..have] == before + next;
    }
    out := tmp[..need];
    assert have == 32 * Blocks(need);
    assert out == tmp[..have][..need];
  }

  lemma {:induction false} ExpandPrefix(env: Env, k: seq<byte>, h: seq<byte>, letter: byte, sid: seq<byte>, m: nat, n: nat)
    requires m <= n
    ensures Expand(env, k, h, letter, sid, m) <= Expand(env, k, h, letter, sid, n)
    decreases n
  {
    if m < n {
      ExpandPrefix(env, k, h, letter, sid, m, n - 1);
    }
  }

  /** Deriving more and using less is deriving less. */
  lemma DerivedPrefix(env: Env, k: seq<byte>, h: seq<byte>, letter: byte, sid: seq<byte>, a: nat, b: nat)
    requires a <= b
    ensures Derived(env, k, h, letter, sid, b)[..a] == Derived(env, k, h, letter, sid, a)
  {
    ExpandPrefix(env, k, h, letter, sid, Blocks(a), Blocks(b));
  }

  /** K(i+1) = HASH(K || H || K1 || ... || Ki), read off any long enough derivation. */
  lemma DerivedBlock(env: Env, k: seq<byte>, h: seq<byte>, letter: byte, sid: seq<byte>, i: nat, need: nat)
    requires 1 <= i && 32 * (i + 1) <= need
    ensures Derived(env, k, h, letter, sid, need)[32 * i..32 * (i + 1)]
      == env.sha256(k + h + Derived(env, k, h, letter, sid, need)[..32 * i])
    ensures Derived(env, k, h, letter, sid, need)[..32] == env.sha256(k + h + [letter] + sid)
  {
    var d := Derived(env, k, h, letter, sid, need);
    ExpandPrefix(env, k, h, letter, sid, i + 1, Blocks(need));
    ExpandPrefix(env, k, h, letter, sid, i, i + 1);
    ExpandPrefix(env, k, h, letter, sid, 1, i);
    var e := Expand(env, k, h, letter, sid, i + 1);
    var before := Expand(env, k, h, letter, sid, i);
    assert d[..32 * (i + 1)] == e;
    assert d[..32 * i] == e[..32 * i] == before;
    assert d[32 * i..32 * (i + 1)] == e[32 * i..];
    assert d[..32] == before[..32] == Expand(env, k, h, letter, sid, 1);
  }

  // ---- exchange hash ----

  const SERVER_VERSION := Ascii("SSH-2.0-UefiSshShell_0.1")

  function HostKeyBlob(env: Env): seq<byte> {
    Str(Ascii("ssh-ed25519")) + Str(env.hostPub)
  }

  function ExchangeHash(env: Env, clientVersion: seq<byte>, serverVersion: seq<byte>, clientKexInit: seq<byte>,
    serverKexInit: seq<byte>, hostKey: seq<byte>, qc: seq<byte>, qs: seq<byte>, shared: seq<byte>): Bytes32
  {
    env.sha256(Str(clientVersion) + Str(serverVersion) + Str(clientKexInit) + Str(serverKexInit)
      + Str(hostKey) + Str(qc) + Str(qs) + MpintOf(shared))
  }

  /** The keys of one direction as the server cuts them: always 16, 32 and 64 bytes, used in part. */
  function CutKeys(env: Env, k: seq<byte>, h: seq<byte>, sid: seq<byte>, letters: (byte, byte, byte), encLen: nat, mac: MacType): Keys
    requires encLen <= 32
  {
    Keys(Derived(env, k, h, letters.1, sid, 32)[..encLen],
         Derived(env, k, h, letters.0, sid, 16),
         Derived(env, k, h, letters.2, sid, 64)[..MacLen(mac)],
         mac)
  }

  /** The same as RFC 4253 asks for it: each key derived at the length its algorithm needs. */
  function ExactKeys(env: Env, k: seq<byte>, h: seq<byte>, sid: seq<byte>, letters: (byte, byte, byte), encLen: nat, mac: MacType): Keys {
    Keys(Derived(env, k, h, letters.1, sid, encLen),
         Derived(env, k, h, letters.0, sid, 16),
         Derived(env, k, h, letters.2, sid, MacLen(mac)),
         mac)
  }

  /** Initialisation vector, cipher and MAC letters, client to server and server to client. */
  const C2S: (byte, byte, byte) := (65, 67, 69)
  const S2C: (byte, byte, byte) := (66, 68, 70)

  lemma CutIsExact(env: Env, k: seq<byte>, h: seq<byte>, sid: seq<byte>, letters: (byte, byte, byte), encLen: nat, mac: MacType)
    requires encLen <= 32
    ensures CutKeys(env, k, h, sid, letters, encLen, mac) == ExactKeys(env, k, h, sid, letters, encLen, mac)
  {
    DerivedPrefix(env, k, h, letters.1, sid, encLen, 32);
    DerivedPrefix(env, k, h, letters.2, sid, MacLen(mac), 64);
  }
}
