/** What a record is on the wire, byte by byte: RFC 4253 section 6, counter mode after RFC 4344 section 4 and HMAC after RFC
    6668, without the functions that build and take apart. */
module Records {
  import opened Bytes
  import opened Wire
  import opened Environment
  import opened RecordLayer

  /** Length, padding length, payload, padding: section 6. */
  predicate IsRecord(b: seq<byte>, payload: seq<byte>, pad: seq<byte>) {
    && |b| == 5 + |payload| + |pad|
    && BeVal(b[..4]) == 1 + |payload| + |pad| && b[4] == |pad|
    && b[5..5 + |payload|] == payload && b[5 + |payload|..] == pad
  }

  /** Every byte is the exclusive or of the other's and the keystream's. */
  predicate Ciphered(env: Env, k: Keys, pos: nat, a: seq<byte>, b: seq<byte>) {
    |a| == |b| && forall i :: 0 <= i < |a| ==> b[i] == Xor(a[i], env.keystream(k.encKey, k.iv, pos + i))
  }

  /** The HMAC of a sequence number, as four bytes, and a plain record. */
  function Tag(env: Env, k: Keys, number: seq<byte>, plain: seq<byte>): seq<byte> {
    match k.macType
    case Sha256 => env.hmac256(k.macKey, number + plain)
    case Sha512 => env.hmac512(k.macKey, number + plain)
  }

  lemma RecordIsPlain(plain: seq<byte>, payload: seq<byte>, pad: seq<byte>)
    requires |pad| <= 255 && 1 + |payload| + |pad| < TWO32
    ensures IsRecord(Plain(payload, pad), payload, pad)
    ensures IsRecord(plain, payload, pad) ==> plain == Plain(payload, pad)
  {
    hide PutU32;
    hide BeVal;
    var n := 1 + |payload| + |pad|;
    PutU32Value(n);
    var p := Plain(payload, pad);
    assert p[..4] == PutU32(n);
    assert p[5..] == payload + pad;
    assert p[5..5 + |payload|] == p[5..][..|payload|] && p[5 + |payload|..] == p[5..][|payload|..];
    if IsRecord(plain, payload, pad) {
      FourUnique(plain[..4], PutU32(n));
      assert plain == plain[..4] + ([plain[4]] + (plain[5..5 + |payload|] + plain[5 + |payload|..]));
    }
  }

  lemma NumberIs(number: seq<byte>, n: uint32)
    requires |number| == 4 && BeVal(number) == n
    ensures number == PutU32(n)
  {
    hide PutU32;
    hide BeVal;
    PutU32Value(n);
    FourUnique(number, PutU32(n));
  }

  lemma TagIs(env: Env, d: Dir, number: seq<byte>, plain: seq<byte>)
    requires |number| == 4 && BeVal(number) == d.seqNo
    ensures Tag(env, d.keys, number, plain) == Mac(env, d, plain)
    ensures |Tag(env, d.keys, number, plain)| == if d.keys.macType.Sha512? then 64 else 32
  {
    hide PutU32;
    hide BeVal;
    NumberIs(number, d.seqNo);
  }

  /** What SendPacket puts out: the plain record, or from the first NEWKEYS on the plain record under the keystream from the
      direction's position on, followed by the HMAC over the sequence number and the plain record. */
  lemma SealedBytes(env: Env, d: Dir, payload: seq<byte>, pad: seq<byte>, plain: seq<byte>, number: seq<byte>)
    requires Sendable(d, payload, pad)
    requires IsRecord(plain, payload, pad) && |number| == 4 && BeVal(number) == d.seqNo
    ensures var wire := Seal(env, d, payload, pad);
      if d.active then
        && |wire| == |plain| + (if d.keys.macType.Sha512? then 64 else 32)
        && Ciphered(env, d.keys, d.pos, plain, wire[..|plain|])
        && wire[|plain|..] == Tag(env, d.keys, number, plain)
      else wire == plain
    ensures AfterSeal(d, payload, pad)
      == d.(pos := if d.active then d.pos + |plain| else d.pos, seqNo := (d.seqNo + 1) % 0x1_0000_0000)
  {
    hide Plain;
    hide BeVal;
    hide Mac;
    hide Tag;
    RecordIsPlain(plain, payload, pad);
    TagIs(env, d, number, plain);
    if d.active {
      var c := Crypt(env, d.keys, d.pos, plain);
      var wire := Seal(env, d, payload, pad);
      assert wire == c + Mac(env, d, plain);
      assert wire[..|plain|] == c && wire[|plain|..] == Mac(env, d, plain);
    }
  }

  // ---- the receiver ----

  /** What the receiver makes of the first bytes of its buffer. */
  predicate Reads(env: Env, d: Dir, buf: seq<byte>, plain: seq<byte>) {
    |plain| <= |buf| && if d.active then Ciphered(env, d.keys, d.pos, buf[..|plain|], plain) else buf[..|plain|] == plain
  }

  /** Which lengths section 6 and the 35000 bytes of the buffer allow. */
  predicate GoodLength(d: Dir, total: nat) {
    9 <= total <= 35000 && total % (if d.active then 16 else 8) == 0
  }

  lemma FrontValue(p: seq<byte>)
    requires |p| >= 4
    ensures GetU32(p) == BeVal(p[..4])
  {
    var b := p[..4];
    assert b[..3][..2][..1][..0] == [];
    assert BeVal(b[..3][..2][..1]) == b[0];
    assert BeVal(b[..3][..2]) == b[0] as int * 256 + b[1];
    assert BeVal(b[..3]) == (b[0] as int * 256 + b[1]) * 256 + b[2];
  }

  lemma CipheredIs(env: Env, k: Keys, pos: nat, a: seq<byte>, b: seq<byte>)
    ensures Ciphered(env, k, pos, a, b) <==> b == Crypt(env, k, pos, a)
  {
  }

  function FirstBytes(d: Dir): nat {
    if d.active then 16 else 4
  }

  function TagLen(d: Dir): nat {
    if !d.active then 0 else if d.keys.macType.Sha512? then 64 else 32
  }

  /** The receiver learns the length from the first block, or from the length alone while nothing is encrypted. */
  lemma HeadRead(env: Env, d: Dir, buf: seq<byte>, stale: uint32, front: seq<byte>, n: uint32)
    requires |front| == FirstBytes(d) && Reads(env, d, buf, front) && BeVal(front[..4]) == n
    ensures RxHead(env, Rx(d, buf, false, stale)) ==
      (Rx(d.(pos := if d.active then d.pos + 16 else d.pos), front + buf[|front|..], GoodLength(d, 4 + n), n),
       if GoodLength(d, 4 + n) then HaveLength else BadLength)
  {
    hide BeVal;
    hide Crypt;
    hide Ciphered;
    hide GetU32;
    CipheredIs(env, d.keys, d.pos, buf[..|front|], front);
    assert buf[..|front|] + buf[|front|..] == buf;
    var b := front + buf[|front|..];
    FrontValue(b);
    assert b[..4] == front[..4];
  }

  /** Too little input is waited for, and a length outside the bounds is refused as soon as it is known. */
  lemma LengthDecides(env: Env, d: Dir, buf: seq<byte>, stale: uint32, front: seq<byte>, n: uint32)
    ensures |buf| < FirstBytes(d) ==> RxStep(env, Rx(d, buf, false, stale)).1.NeedMore?
    ensures |front| == FirstBytes(d) && Reads(env, d, buf, front) && BeVal(front[..4]) == n ==>
      var r := RxStep(env, Rx(d, buf, false, stale)).1;
      && (r.BadLength? <==> !GoodLength(d, 4 + n))
      && (r.NeedMore? <==> GoodLength(d, 4 + n) && |buf| < 4 + n + TagLen(d))
  {
    hide BeVal;
    hide Ciphered;
    hide GoodLength;
    hide RxPlain;
    hide Mac;
    if |front| == FirstBytes(d) && Reads(env, d, buf, front) && BeVal(front[..4]) == n {
      HeadRead(env, d, buf, stale, front, n);
      assert |front + buf[|front|..]| == |buf|;
    }
  }

  lemma RestRead(env: Env, d: Dir, buf: seq<byte>, plain: seq<byte>)
    requires d.active && |plain| >= 16 && Reads(env, d, buf, plain)
    ensures plain[..16] + Crypt(env, d.keys, d.pos + 16, buf[16..|plain|]) == plain
    ensures Reads(env, d, buf, plain[..16])
  {
    var n := |plain|;
    var rest := Crypt(env, d.keys, d.pos + 16, buf[16..n]);
    forall i | 0 <= i < |rest|
      ensures rest[i] == plain[16..][i]
    {
      assert buf[16..n][i] == buf[..n][16 + i];
      assert d.pos + 16 + i == d.pos + (16 + i);
    }
    assert rest == plain[16..] && plain == plain[..16] + plain[16..];
    assert buf[..16] == buf[..n][..16];
  }

  lemma BodyRead(env: Env, d: Dir, buf: seq<byte>, plain: seq<byte>)
    requires |plain| >= FirstBytes(d) && Reads(env, d, buf, plain) && GoodLength(d, |plain|) && |buf| >= |plain| + TagLen(d)
    ensures var f := FirstBytes(d);
      var x := Rx(d.(pos := if d.active then d.pos + 16 else d.pos), plain[..f] + buf[f..], true, |plain| - 4);
      RxOk(x) && |x.buf| >= Need(x) && RxPlain(env, x) == plain + buf[|plain|..]
  {
    hide Crypt;
    hide Ciphered;
    var n := |plain|;
    if d.active {
      RestRead(env, d, buf, plain);
      var b := plain[..16] + buf[16..];
      assert b[..16] == plain[..16] && b[16..n] == buf[16..n] && b[n..] == buf[n..];
    } else {
      assert plain[..4] + buf[4..] == plain + buf[n..] by {
        assert buf[..n] == plain && buf == plain + buf[n..];
      }
    }
  }

  /** A whole record at the front of the buffer is taken exactly when its tag is the HMAC of the sequence number and the plain
      record and it has at least four bytes of padding inside it; its payload is what the padding leaves, and the receiver
      goes on behind the tag. */
  lemma RecordOpened(env: Env, d: Dir, buf: seq<byte>, stale: uint32, plain: seq<byte>, number: seq<byte>)
    requires |plain| >= FirstBytes(d) && Reads(env, d, buf, plain) && BeVal(plain[..4]) == |plain| - 4 && GoodLength(d, |plain|)
    requires |buf| >= |plain| + TagLen(d) && |number| == 4 && BeVal(number) == d.seqNo
    ensures var (n, end) := (|plain|, |plain| + TagLen(d));
      var (x, r) := RxStep(env, Rx(d, buf, false, stale));
      if d.active && buf[n..end] != Tag(env, d.keys, number, plain) then r.BadMac?
      else if !(4 <= plain[4] <= n - 5) then r.BadPadding?
      else
        && r == Got(plain[5..n - plain[4]])
        && x.buf == buf[end..] && !x.haveLen
        && x.dir == d.(pos := if d.active then d.pos + n else d.pos, seqNo := (d.seqNo + 1) % 0x1_0000_0000)
  {
    hide BeVal;
    hide Mac;
    hide Tag;
    hide RxStep;
    hide RxBody;
    hide RxPlain;
    hide Reads;
    hide GoodLength;
    var (n, end) := (|plain|, |plain| + TagLen(d));
    var x := Halfway(d, buf, plain);
    WholeRecord(env, d, buf, stale, plain);
    TagIs(env, x.dir, number, plain);
    var b := plain + buf[n..];
    assert b[..n] == plain && b[n..end] == buf[n..end] && b[end..] == buf[end..] && b[4] == plain[4];
    BodyIs(env, x, d.active ==> buf[n..end] == Tag(env, d.keys, number, plain));
    if 4 <= plain[4] <= n - 5 {
      assert b[5..n - plain[4]] == plain[5..n - plain[4]];
    }
  }

  /** The receiver once it knows the length. */
  ghost function Halfway(d: Dir, buf: seq<byte>, plain: seq<byte>): Rx
    requires FirstBytes(d) <= |plain| <= |buf| && GoodLength(d, |plain|)
  {
    Rx(d.(pos := if d.active then d.pos + 16 else d.pos), plain[..FirstBytes(d)] + buf[FirstBytes(d)..], true, |plain| - 4)
  }

  lemma WholeRecord(env: Env, d: Dir, buf: seq<byte>, stale: uint32, plain: seq<byte>)
    requires |plain| >= FirstBytes(d) && Reads(env, d, buf, plain) && BeVal(plain[..4]) == |plain| - 4 && GoodLength(d, |plain|)
    requires |buf| >= |plain| + TagLen(d)
    ensures var x := Halfway(d, buf, plain);
      && RxOk(x) && x.haveLen && |x.buf| >= Need(x) == |plain| + TagLen(d) && x.dir.seqNo == d.seqNo && x.dir.keys == d.keys
      && RxPlain(env, x) == plain + buf[|plain|..]
      && RxStep(env, Rx(d, buf, false, stale)) == RxBody(env, x)
  {
    hide BeVal;
    hide Crypt;
    hide RxHead;
    hide RxBody;
    hide RxPlain;
    hide Reads;
    var f := FirstBytes(d);
    FrontReads(env, d, buf, plain);
    assert plain[..f][..4] == plain[..4];
    HeadRead(env, d, buf, stale, plain[..f], |plain| - 4);
    BodyRead(env, d, buf, plain);
  }

  lemma FrontReads(env: Env, d: Dir, buf: seq<byte>, plain: seq<byte>)
    requires |plain| >= FirstBytes(d) && Reads(env, d, buf, plain)
    ensures Reads(env, d, buf, plain[..FirstBytes(d)]) && |buf| >= |plain|
  {
    if d.active {
      RestRead(env, d, buf, plain);
    } else {
      assert buf[..4] == buf[..|plain|][..4];
    }
  }
}
