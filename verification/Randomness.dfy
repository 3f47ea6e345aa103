/** Where the random bytes go: cookies, private keys and padding, each drawn afresh. */
module Randomness {
  import opened Bytes
  import opened Wire
  import opened Environment
  import opened RecordLayer
  import opened Session
  import opened SessionFrames

  /** The generator's output from a place on. */
  predicate IsDraw(env: Env, b: seq<byte>, at: nat) {
    forall i :: 0 <= i < |b| ==> b[i] == env.random(at + i)
  }

  /** Drawn for a packet just before its padding: the cookie of a KEXINIT (20), the private key behind a KEXDH_REPLY (31). */
  function Lead(p: seq<byte>): nat {
    if Is(p, 20) then 16 else if Is(p, 31) then 32 else 0
  }

  /** The cookie is the draw, the public value in the reply belongs to a private key that is. */
  predicate Led(env: Env, p: seq<byte>, at: nat) {
    && at >= Lead(p)
    && (Is(p, 20) ==> |p| >= 17 && IsDraw(env, p[1..17], at - 16))
    && (Is(p, 31) ==>
          var (secret, f) := (Random(env, at - 32, 32), Fields(p, [NAME, NAME, NAME]));
          IsDraw(env, secret, at - 32) && f.Some? && f.value[1] == IStr(env.dhPublic(secret)))
  }

  /** How far the generator had run once the first j packets were out. */
  function Floor(s: seq<Sent>, j: nat): nat
    requires j <= |s|
  {
    if j == 0 then 0 else s[j - 1].at + |s[j - 1].pad|
  }

  ghost predicate Genuine(env: Env, s: seq<Sent>, j: nat)
    requires j < |s|
  {
    && IsDraw(env, s[j].pad, s[j].at) && Led(env, s[j].payload, s[j].at)
    && Floor(s, j) + Lead(s[j].payload) <= s[j].at
  }

  /** Every packet's random bytes are the generator's, from behind those of the packet before it. */
  ghost predicate Drawn(env: Env, s: seq<Sent>, drawn: nat) {
    (forall j :: 0 <= j < |s| ==> Genuine(env, s, j)) && Floor(s, |s|) <= drawn
  }

  ghost predicate Draws(env: Env, k: Core) {
    Drawn(env, k.hist.sent, k.drawn)
  }

  /** A draw for something else. */
  lemma DrawnMore(env: Env, s: seq<Sent>, drawn: nat, more: nat)
    requires drawn <= more
    ensures Drawn(env, s, drawn) ==> Drawn(env, s, more)
  {
    hide Genuine;
  }

  lemma DrawnOnce(env: Env, s: seq<Sent>, drawn: nat, x: Sent)
    requires Drawn(env, s, drawn) && drawn + Lead(x.payload) <= x.at && IsDraw(env, x.pad, x.at) && Led(env, x.payload, x.at)
    ensures Drawn(env, s + [x], x.at + |x.pad|)
  {
    hide IsDraw;
    hide Led;
    hide Lead;
    var t := s + [x];
    forall j | 0 <= j < |t|
      ensures Genuine(env, t, j)
    {
      assert j < |s| ==> Genuine(env, s, j);
    }
  }

  /** A packet whose own draw, if it has one, was the last. */
  lemma SendDraws(env: Env, k: Core, p: seq<byte>, before: nat)
    requires Drawn(env, k.hist.sent, before) && before + Lead(p) <= k.drawn && Led(env, p, k.drawn)
    ensures Draws(env, SendPacket(env, k, p).k)
  {
    hide Led;
    hide Lead;
    hide Seal;
    hide PadLen;
    if !k.state.StClosed? && |p| + 64 <= MAX_PACKET {
      var x := SendPacket(env, k, p).k.hist.sent[|k.hist.sent|];
      DrawnOnce(env, k.hist.sent, before, x);
      assert SendPacket(env, k, p).k.hist.sent == k.hist.sent + [x];
    }
  }

  lemma PlainDraws(env: Env, k: Core, p: seq<byte>)
    requires Draws(env, k) && Lead(p) == 0
    ensures Draws(env, SendPacket(env, k, p).k)
  {
    hide SendPacket;
    SendDraws(env, k, p, k.drawn);
  }

  /** Of two packets of one run the later's random bytes lie behind the earlier's. */
  lemma {:induction false} Apart(env: Env, s: seq<Sent>, drawn: nat, i: nat, j: nat)
    requires Drawn(env, s, drawn) && i < j < |s|
    ensures s[i].at + |s[i].pad| + Lead(s[j].payload) <= s[j].at
    decreases j
  {
    hide Led;
    hide IsDraw;
    hide Lead;
    assert Genuine(env, s, j);
    if i < j - 1 {
      Apart(env, s, drawn, i, j - 1);
    }
  }

  lemma LastDrawn(env: Env, s: seq<Sent>, drawn: nat, j: nat)
    requires Drawn(env, s, drawn) && j < |s|
    ensures s[j].at + |s[j].pad| <= drawn
  {
    hide Genuine;
    if j < |s| - 1 {
      Apart(env, s, drawn, j, |s| - 1);
    }
  }
}
