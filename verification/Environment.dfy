/** What the connection cannot see into: ciphers, hashes, key exchange, signatures, randomness, the password
    callback and the socket. Each is an arbitrary total function, so every theorem holds for all of them. */
module Environment {
  import opened Bytes
  import opened Algorithms

  type Bytes32 = s: seq<byte> | |s| == 32 witness Zeros(32)
  type Bytes64 = s: seq<byte> | |s| == 64 witness Zeros(64)

  datatype Env = Env(
    keystream: (seq<byte>, seq<byte>, nat) -> byte,         // AES-CTR: key, initial counter block, byte position
    hmac256: (seq<byte>, seq<byte>) -> Bytes32,             // key, message
    hmac512: (seq<byte>, seq<byte>) -> Bytes64,
    sha256: seq<byte> -> Bytes32,
    random: nat -> byte,                                    // the n-th byte the generator yields
    dhPublic: Bytes32 -> Bytes32,                           // X25519 base point multiplication
    dhShared: (Bytes32, Bytes32) -> Option<Bytes32>,        // private, peer's public; None is a refused point
    hostPub: Bytes32,
    sign: seq<byte> -> Bytes64,
    authorize: (nat, seq<byte>, seq<byte>) -> bool,         // the password callback, after n refusals
    writeOk: nat -> bool)                                   // whether the n-th write to the socket succeeds

  function Random(env: Env, at: nat, n: nat): (b: seq<byte>)
    ensures |b| == n
  {
    seq<byte>(n, i requires 0 <= i < n => env.random(at + i))
  }

  function Hmac(env: Env, t: MacType, key: seq<byte>, data: seq<byte>): (m: seq<byte>)
    ensures |m| == MacLen(t)
  {
    if t.Sha512? then env.hmac512(key, data) else env.hmac256(key, data)
  }

  // The same functions as the connection calls them.

  predicate WriteOk(env: Env, n: nat) {
    env.writeOk(n)
  }

  predicate Consents(env: Env, refusals: nat, user: seq<byte>, pass: seq<byte>) {
    env.authorize(refusals, user, pass)
  }

  function DhShared(env: Env, priv: Bytes32, peer: Bytes32): Option<Bytes32> {
    env.dhShared(priv, peer)
  }

  function DhPublic(env: Env, priv: Bytes32): Bytes32 {
    env.dhPublic(priv)
  }
}
