/** The binary packet protocol (RFC 4253 sections 6 and 6.4): SendPacket's framing and the receiver that takes
    records apart from whatever bytes have arrived so far. */
module RecordLayer {
  import opened Bytes
  import opened Algorithms
  import opened Environment

  const MAX_PACKET: nat := 35000
  const MAX_MAC: nat := 64
  const MAX_PAYLOAD: nat := MAX_PACKET - 64

  /** The keys of one direction. macKey is the part of the 64-byte buffer that HMAC is given. */
  datatype Keys = Keys(encKey: seq<byte>, iv: seq<byte>, macKey: seq<byte>, macType: MacType)

  /** SSH_DIR. `pos` is how far AES-CTR has run; `epoch` counts the key changes of this direction. */
  datatype Dir = Dir(active: bool, keys: Keys, pos: nat, seqNo: uint32, epoch: nat)

  const CLEAR := Dir(false, Keys([], [], [], Sha256), 0, 0, 0)

  /** A key change restarts the cipher and keeps the sequence number. */
  function Install(d: Dir, k: Keys): Dir {
    Dir(true, k, 0, d.seqNo, d.epoch + 1)
  }

  function Advance(d: Dir, n: nat): Dir {
    d.(pos := if d.active then d.pos + n else d.pos, seqNo := Low32(d.seqNo + 1))
  }

  function BlockOf(d: Dir): nat {
    if d.active then 16 else 8
  }

  function MacLenOf(d: Dir): nat {
    if d.active then MacLen(d.keys.macType) else 0
  }

  /** CTR mode is the same operation both ways: exclusive or with the keystream. */
  function Crypt(env: Env, k: Keys, pos: nat, data: seq<byte>): (r: seq<byte>)
    ensures |r| == |data|
  {
    seq(|data|, i requires 0 <= i < |data| => Xor(data[i], env.keystream(k.encKey, k.iv, pos + i)))
  }

  function Mac(env: Env, d: Dir, plain: seq<byte>): seq<byte> {
    Hmac(env, d.keys.macType, d.keys.macKey, PutU32(d.seqNo) + plain)
  }

  // ---- sending ----

  function PadLen(d: Dir, len: nat): (p: nat)
    ensures 4 <= p < 4 + BlockOf(d)
    ensures (5 + len + p) % BlockOf(d) == 0
  {
    var blk := BlockOf(d);
    var p := blk - (5 + len) % blk;
    if p < 4 then p + blk else p
  }

  function Plain(payload: seq<byte>, pad: seq<byte>): seq<byte> {
    PutU32(Low32(1 + |payload| + |pad|)) + ([|pad| % 256] + (payload + pad))
  }

  /** The bytes SendPacket hands to the socket. */
  function Seal(env: Env, d: Dir, payload: seq<byte>, pad: seq<byte>): seq<byte> {
    var plain := Plain(payload, pad);
    if d.active then Crypt(env, d.keys, d.pos, plain) + Mac(env, d, plain) else plain
  }

  function AfterSeal(d: Dir, payload: seq<byte>, pad: seq<byte>): Dir {
    Advance(d, 5 + |payload| + |pad|)
  }

  // ---- receiving ----

  /** The receiver: what has arrived and is not yet consumed, and whether the length of the packet at its
      front is already known. In an active direction the first 16 bytes are then already plain. */
  datatype Rx = Rx(dir: Dir, buf: seq<byte>, haveLen: bool, pktLen: uint32)

  predicate LengthOk(d: Dir, n: uint32) {
    5 <= n <= MAX_PACKET - 4 && (4 + n) % BlockOf(d) == 0
  }

  predicate RxOk(x: Rx) {
    x.haveLen ==> LengthOk(x.dir, x.pktLen) && |x.buf| >= FirstOf(x.dir)
  }

  function FirstOf(d: Dir): nat {
    if d.active then 16 else 4
  }

  function Need(x: Rx): nat {
    4 + x.pktLen + MacLenOf(x.dir)
  }

  datatype RxResult = NeedMore | HaveLength | BadLength | BadMac | BadPadding | Got(payload: seq<byte>)

  /** Learns the length, decrypting the first block in place. */
  function RxHead(env: Env, x: Rx): (r: (Rx, RxResult))
    requires RxOk(x)
    ensures RxOk(r.0) && |r.0.buf| == |x.buf|
    ensures r.1.HaveLength? ==> r.0.haveLen
    ensures r.1.NeedMore? || r.1.HaveLength? || r.1.BadLength?
  {
    if x.haveLen then (x, HaveLength)
    else if |x.buf| < FirstOf(x.dir) then (x, NeedMore)
    else
      var buf := if x.dir.active then Crypt(env, x.dir.keys, x.dir.pos, x.buf[..16]) + x.buf[16..] else x.buf;
      var dir := if x.dir.active then x.dir.(pos := x.dir.pos + 16) else x.dir;
      var n := GetU32(buf);
      if !LengthOk(dir, n) then (Rx(dir, buf, false, n), BadLength)
      else (Rx(dir, buf, true, n), HaveLength)
  }

  /** The rest of the packet, decrypted in place. */
  function RxPlain(env: Env, x: Rx): (buf: seq<byte>)
    requires RxOk(x) && x.haveLen && |x.buf| >= Need(x)
    ensures |buf| == |x.buf|
  {
    var total := 4 + x.pktLen;
    if x.dir.active then x.buf[..16] + Crypt(env, x.dir.keys, x.dir.pos, x.buf[16..total]) + x.buf[total..]
    else x.buf
  }

  function RxBody(env: Env, x: Rx): (r: (Rx, RxResult))
    requires RxOk(x) && x.haveLen
    ensures RxOk(r.0)
    ensures !r.1.HaveLength?
    ensures r.1.NeedMore? <==> |x.buf| < Need(x)
    ensures r.1.NeedMore? ==> r.0 == x
    ensures !r.1.BadLength? && |r.0.buf| <= |x.buf|
    ensures r.1.Got? ==> |r.0.buf| == |x.buf| - Need(x) && !r.0.haveLen
  {
    var total := 4 + x.pktLen;
    if |x.buf| < Need(x) then (x, NeedMore)
    else
      var buf := RxPlain(env, x);
      var x1 := Rx(if x.dir.active then x.dir.(pos := x.dir.pos + (total - 16)) else x.dir, buf, true, x.pktLen);
      if x.dir.active && Mac(env, x.dir, buf[..total]) != buf[total..Need(x)] then (x1, BadMac)
      else
        var pad := buf[4];
        if pad < 4 || pad + 1 > x.pktLen then (x1, BadPadding)
        else
          (Rx(x1.dir.(seqNo := Low32(x.dir.seqNo + 1)), buf[Need(x)..], false, x.pktLen),
           Got(buf[5..5 + (x.pktLen - 1 - pad)]))
  }

  function RxStep(env: Env, x: Rx): (r: (Rx, RxResult))
    requires RxOk(x)
    ensures RxOk(r.0) && !r.1.HaveLength?
    ensures r.1.Got? ==> |r.0.buf| < |x.buf| && !r.0.haveLen
  {
    var (x1, h) := RxHead(env, x);
    if h.HaveLength? then RxBody(env, x1) else (x1, h)
  }

  /** When the receiver has run out of work, its buffer is short of one maximal packet: there is always room
      for the next read. */
  lemma ReceiveProgress(env: Env, x: Rx)
    requires RxOk(x) && RxStep(env, x).1.NeedMore?
    ensures |RxStep(env, x).0.buf| < MAX_PACKET + MAX_MAC
  {
  }

  // ---- the cipher ----

  lemma CryptTwice(env: Env, k: Keys, pos: nat, data: seq<byte>)
    ensures Crypt(env, k, pos, Crypt(env, k, pos, data)) == data
  {
    var c := Crypt(env, k, pos, data);
    forall i | 0 <= i < |data|
      ensures Crypt(env, k, pos, c)[i] == data[i]
    {
      XorTwice(data[i], env.keystream(k.encKey, k.iv, pos + i));
    }
  }

  lemma CryptSplit(env: Env, k: Keys, pos: nat, a: seq<byte>, b: seq<byte>)
    ensures Crypt(env, k, pos, a + b) == Crypt(env, k, pos, a) + Crypt(env, k, pos + |a|, b)
  {
    var l, r := Crypt(env, k, pos, a + b), Crypt(env, k, pos, a) + Crypt(env, k, pos + |a|, b);
    forall j | 0 <= j < |l|
      ensures l[j] == r[j]
    {
      assert j >= |a| ==> pos + |a| + (j - |a|) == pos + j;
    }
  }

  // ---- one packet, sealed and opened ----

  /** A packet the receiver takes: as much padding as the sender likes, as long as the record is in whole blocks, not too
      long, and its padding fits a byte and is at least 4 (RFC 4253 section 6). */
  predicate Sendable(d: Dir, payload: seq<byte>, pad: seq<byte>) {
    4 <= |pad| <= 255 && 1 + |payload| + |pad| <= MAX_PACKET - 4 && (5 + |payload| + |pad|) % BlockOf(d) == 0
  }

  lemma FieldsOf(n: uint32, k: byte, payload: seq<byte>, pad: seq<byte>)
    ensures var p := PutU32(n) + ([k] + (payload + pad));
      |p| == 5 + |payload| + |pad| && GetU32(p) == n && p[4] == k && p[5..5 + |payload|] == payload
  {
    hide PutU32;
    hide GetU32;
    var body := [k] + (payload + pad);
    GetPut(n, body);
    assert body[1..1 + |payload|] == payload;
    assert (PutU32(n) + body)[5..5 + |payload|] == body[1..1 + |payload|];
  }

  /** SendPacket pads that way. */
  lemma PaddedIsSendable(d: Dir, payload: seq<byte>, pad: seq<byte>)
    requires |payload| <= MAX_PAYLOAD && |pad| == PadLen(d, |payload|)
    ensures Sendable(d, payload, pad)
  {
  }

  lemma PlainShape(d: Dir, payload: seq<byte>, pad: seq<byte>)
    requires Sendable(d, payload, pad)
    ensures var p := Plain(payload, pad);
      && |p| == 5 + |payload| + |pad|
      && GetU32(p) == |p| - 4 && LengthOk(d, |p| - 4)
      && p[4] == |pad| && p[5..5 + |payload|] == payload
  {
    hide PutU32;
    hide GetU32;
    FieldsOf(1 + |payload| + |pad|, |pad|, payload, pad);
  }

  /** The receiver between its two decryptions of a sealed packet. */
  ghost function HalfOpen(env: Env, d: Dir, payload: seq<byte>, pad: seq<byte>, rest: seq<byte>): (x: Rx)
    requires Sendable(d, payload, pad)
    ensures RxOk(x) && x.haveLen && x.pktLen == 1 + |payload| + |pad|
  {
    PlainShape(d, payload, pad);
    var p := Plain(payload, pad);
    if d.active then
      Rx(d.(pos := d.pos + 16), p[..16] + (Crypt(env, d.keys, d.pos + 16, p[16..]) + (Mac(env, d, p) + rest)), true, |p| - 4)
    else
      Rx(d, p + rest, true, |p| - 4)
  }

  lemma HeadResult(env: Env, d: Dir, block: seq<byte>, suffix: seq<byte>, stale: uint32)
    requires d.active && |block| == 16 && LengthOk(d, GetU32(block))
    ensures RxHead(env, Rx(d, Crypt(env, d.keys, d.pos, block) + suffix, false, stale))
      == (Rx(d.(pos := d.pos + 16), block + suffix, true, GetU32(block)), HaveLength)
  {
    var buf := Crypt(env, d.keys, d.pos, block) + suffix;
    assert buf[..16] == Crypt(env, d.keys, d.pos, block) && buf[16..] == suffix;
    CryptTwice(env, d.keys, d.pos, block);
    assert GetU32(block + suffix) == GetU32(block);
  }

  lemma FrontInt(p: seq<byte>)
    requires |p| >= 9
    ensures |p| >= 16 ==> GetU32(p[..16]) == GetU32(p)
    ensures forall rest :: GetU32(p + rest) == GetU32(p)
  {
  }

  lemma HeadOpen(env: Env, d: Dir, buf: seq<byte>, stale: uint32)
    requires !d.active ==> |buf| >= 4 && LengthOk(d, GetU32(buf))
    ensures !d.active ==> RxHead(env, Rx(d, buf, false, stale)) == (Rx(d, buf, true, GetU32(buf)), HaveLength)
  {
  }

  lemma OpenHead(env: Env, d: Dir, payload: seq<byte>, pad: seq<byte>, rest: seq<byte>, stale: uint32)
    requires Sendable(d, payload, pad)
    ensures RxHead(env, Rx(d, Seal(env, d, payload, pad) + rest, false, stale))
      == (HalfOpen(env, d, payload, pad, rest), HaveLength)
  {
    hide Crypt;
    hide Mac;
    hide Plain;
    hide RxHead;
    var p := Plain(payload, pad);
    PlainShape(d, payload, pad);
    FrontInt(p);
    HeadOpen(env, d, p + rest, stale);
    if d.active {
      var mac := Mac(env, d, p);
      var tail := Crypt(env, d.keys, d.pos + 16, p[16..]);
      assert p == p[..16] + p[16..];
      CryptSplit(env, d.keys, d.pos, p[..16], p[16..]);
      Associates(Crypt(env, d.keys, d.pos, p[..16]) + tail, mac, rest);
      Associates(Crypt(env, d.keys, d.pos, p[..16]), tail, mac + rest);
      HeadResult(env, d, p[..16], tail + (mac + rest), stale);
    }
  }

  lemma BodyResult(env: Env, x: Rx, p: seq<byte>, mac: seq<byte>, rest: seq<byte>)
    requires RxOk(x) && x.haveLen && x.pktLen == |p| - 4 && |mac| == MacLenOf(x.dir)
    requires |x.buf| == |p| + |mac| + |rest| && RxPlain(env, x) == p + (mac + rest)
    requires x.dir.active ==> mac == Mac(env, x.dir, p)
    requires 4 <= p[4] <= |p| - 5
    ensures RxBody(env, x) ==
      (Rx(x.dir.(pos := if x.dir.active then x.dir.pos + (|p| - 16) else x.dir.pos, seqNo := Low32(x.dir.seqNo + 1)),
          rest, false, x.pktLen),
       Got(p[5..|p| - p[4]]))
  {
    var b := p + (mac + rest);
    assert b[..|p|] == p && b[|p|..Need(x)] == mac && b[Need(x)..] == rest;
    assert b[5..|p| - p[4]] == p[5..|p| - p[4]];
  }

  lemma PlainResult(env: Env, x: Rx, head: seq<byte>, tail: seq<byte>, suffix: seq<byte>)
    requires x.dir.active && RxOk(x) && x.haveLen && |head| == 16 && 4 + x.pktLen == 16 + |tail|
    requires x.buf == head + (Crypt(env, x.dir.keys, x.dir.pos, tail) + suffix) && |x.buf| >= Need(x)
    ensures RxPlain(env, x) == (head + tail) + suffix
  {
    var c := Crypt(env, x.dir.keys, x.dir.pos, tail);
    assert x.buf[..16] == head && x.buf[16..4 + x.pktLen] == c && x.buf[4 + x.pktLen..] == suffix;
    CryptTwice(env, x.dir.keys, x.dir.pos, tail);
  }

  lemma OpenBodyActive(env: Env, d: Dir, p: seq<byte>, rest: seq<byte>)
    requires d.active && 9 <= |p| < TWO32 && LengthOk(d, |p| - 4) && 4 <= p[4] <= |p| - 5
    ensures var x := Rx(d.(pos := d.pos + 16),
                        p[..16] + (Crypt(env, d.keys, d.pos + 16, p[16..]) + (Mac(env, d, p) + rest)), true, |p| - 4);
      RxOk(x) && RxBody(env, x) == (Rx(Advance(d, |p|), rest, false, |p| - 4), Got(p[5..|p| - p[4]]))
  {
    hide RxPlain;
    var mac := Mac(env, d, p);
    var x := Rx(d.(pos := d.pos + 16), p[..16] + (Crypt(env, d.keys, d.pos + 16, p[16..]) + (mac + rest)), true, |p| - 4);
    PlainResult(env, x, p[..16], p[16..], mac + rest);
    assert p[..16] + p[16..] == p;
    BodyResult(env, x, p, mac, rest);
  }

  lemma OpenBody(env: Env, d: Dir, payload: seq<byte>, pad: seq<byte>, rest: seq<byte>)
    requires Sendable(d, payload, pad)
    ensures RxBody(env, HalfOpen(env, d, payload, pad, rest))
      == (Rx(AfterSeal(d, payload, pad), rest, false, 1 + |payload| + |pad|), Got(payload))
  {
    hide RxBody;
    var p := Plain(payload, pad);
    PlainShape(d, payload, pad);
    if d.active {
      OpenBodyActive(env, d, p, rest);
    } else {
      assert [] + rest == rest;
      BodyResult(env, HalfOpen(env, d, payload, pad, rest), p, [], rest);
    }
  }

  /** The receiver undoes SendPacket: one step yields exactly the payload, leaves exactly what followed the
      packet, and moves its cipher and sequence number to where the sender's now are. */
  lemma OpenSealed(env: Env, d: Dir, payload: seq<byte>, pad: seq<byte>, rest: seq<byte>, stale: uint32)
    requires Sendable(d, payload, pad)
    ensures RxStep(env, Rx(d, Seal(env, d, payload, pad) + rest, false, stale))
      == (Rx(AfterSeal(d, payload, pad), rest, false, 1 + |payload| + |pad|), Got(payload))
  {
    hide RxHead;
    hide RxBody;
    hide Seal;
    OpenHead(env, d, payload, pad, rest, stale);
    OpenBody(env, d, payload, pad, rest);
  }

  // ---- fragmentation, one step ----

  function More(x: Rx, extra: seq<byte>): (r: Rx)
    requires RxOk(x)
    ensures RxOk(r)
  {
    x.(buf := x.buf + extra)
  }

  lemma HeadMore(env: Env, x: Rx, extra: seq<byte>)
    requires RxOk(x)
    ensures var (x1, r) := RxHead(env, x);
      if r.NeedMore? then x1 == x
      else RxHead(env, More(x, extra)) == (More(x1, extra), r)
  {
    if !x.haveLen && |x.buf| >= FirstOf(x.dir) {
      var buf := x.buf + extra;
      if x.dir.active {
        assert buf[..16] == x.buf[..16] && buf[16..] == x.buf[16..] + extra;
        var c := Crypt(env, x.dir.keys, x.dir.pos, x.buf[..16]);
        assert c + (x.buf[16..] + extra) == (c + x.buf[16..]) + extra;
      }
    }
  }

  lemma PlainMore(env: Env, x: Rx, extra: seq<byte>)
    requires RxOk(x) && x.haveLen && |x.buf| >= Need(x)
    ensures RxPlain(env, More(x, extra)) == RxPlain(env, x) + extra
  {
    hide Crypt;
    var total := 4 + x.pktLen;
    if x.dir.active {
      SlicesMore(x.buf, extra, 0, 16);
      SlicesMore(x.buf, extra, 16, total);
      Associates(x.buf[..16] + Crypt(env, x.dir.keys, x.dir.pos, x.buf[16..total]), x.buf[total..], extra);
    }
  }

  lemma SlicesMore(b: seq<byte>, extra: seq<byte>, lo: nat, hi: nat)
    requires lo <= hi <= |b|
    ensures (b + extra)[lo..hi] == b[lo..hi] && (b + extra)[hi..] == b[hi..] + extra
  {
  }

  /** RxBody on a whole packet, by the outcome of the MAC check. */
  lemma BodyIs(env: Env, x: Rx, same: bool)
    requires RxOk(x) && x.haveLen && |x.buf| >= Need(x)
    requires var buf := RxPlain(env, x);
      same <==> x.dir.active ==> Mac(env, x.dir, buf[..4 + x.pktLen]) == buf[4 + x.pktLen..Need(x)]
    ensures var buf := RxPlain(env, x);
      var d := if x.dir.active then x.dir.(pos := x.dir.pos + (x.pktLen - 12)) else x.dir;
      RxBody(env, x) ==
        if !same then (Rx(d, buf, true, x.pktLen), BadMac)
        else if buf[4] < 4 || buf[4] + 1 > x.pktLen then (Rx(d, buf, true, x.pktLen), BadPadding)
        else (Rx(d.(seqNo := Low32(x.dir.seqNo + 1)), buf[Need(x)..], false, x.pktLen),
              Got(buf[5..5 + (x.pktLen - 1 - buf[4])]))
  {
    hide RxPlain;
    hide Mac;
  }

  lemma BodyMore(env: Env, x: Rx, extra: seq<byte>)
    requires RxOk(x) && x.haveLen
    ensures var (x1, r) := RxBody(env, x);
      r.NeedMore? || RxBody(env, More(x, extra)) == (More(x1, extra), r)
  {
    hide RxPlain;
    hide RxBody;
    hide Mac;
    var total, need := 4 + x.pktLen, Need(x);
    if |x.buf| >= need {
      PlainMore(env, x, extra);
      var b := RxPlain(env, x);
      SlicesMore(b, extra, 0, total);
      SlicesMore(b, extra, total, need);
      var same := x.dir.active ==> Mac(env, x.dir, b[..total]) == b[total..need];
      BodyIs(env, x, same);
      BodyIs(env, More(x, extra), same);
      if 4 <= b[4] && b[4] + 1 <= x.pktLen {
        SlicesMore(b, extra, 5, 5 + (x.pktLen - 1 - b[4]));
      }
    }
  }

  lemma HeadKnown(env: Env, x: Rx)
    requires RxOk(x) && x.haveLen
    ensures RxHead(env, x) == (x, HaveLength)
  {
  }

  /** More input changes nothing about a step that could already finish; a step that could not finish has
      at most done work that the same step on the longer input would also do. */
  lemma StepMore(env: Env, x: Rx, extra: seq<byte>)
    requires RxOk(x)
    ensures var (x1, r) := RxStep(env, x);
      if r.NeedMore? then RxStep(env, More(x, extra)) == RxStep(env, More(x1, extra))
      else RxStep(env, More(x, extra)) == (More(x1, extra), r)
  {
    hide RxHead;
    hide RxBody;
    var (x1, h) := RxHead(env, x);
    HeadMore(env, x, extra);
    if h.HaveLength? {
      BodyMore(env, x1, extra);
      HeadKnown(env, More(x1, extra));
    }
  }

  // ---- whole runs ----

  const NEWKEYS: byte := 21

  datatype Msg = Msg(payload: seq<byte>, pad: seq<byte>)

  predicate IsNewKeys(payload: seq<byte>) {
    payload != [] && payload[0] == NEWKEYS
  }

  /** The key change, if any, that follows a packet. */
  function Switch(d: Dir, payload: seq<byte>, keys: seq<Keys>): (Dir, seq<Keys>) {
    if IsNewKeys(payload) && keys != [] then (Install(d, keys[0]), keys[1..]) else (d, keys)
  }

  /** What a sender's successive packets put on the wire: the bytes, where the sender ends, the keys not yet used. */
  datatype Sealed = Sealed(bytes: seq<byte>, dir: Dir, keys: seq<Keys>)

  function SealAll(env: Env, d: Dir, msgs: seq<Msg>, keys: seq<Keys>): Sealed
    decreases |msgs|
  {
    if msgs == [] then Sealed([], d, keys)
    else
      var m := msgs[0];
      var (d1, keys1) := Switch(AfterSeal(d, m.payload, m.pad), m.payload, keys);
      var r := SealAll(env, d1, msgs[1..], keys1);
      r.(bytes := Seal(env, d, m.payload, m.pad) + r.bytes)
  }

  ghost predicate AllSendable(d: Dir, msgs: seq<Msg>, keys: seq<Keys>)
    decreases |msgs|
  {
    msgs == [] ||
    (Sendable(d, msgs[0].payload, msgs[0].pad) &&
     var (d1, keys1) := Switch(AfterSeal(d, msgs[0].payload, msgs[0].pad), msgs[0].payload, keys);
     AllSendable(d1, msgs[1..], keys1))
  }

  function Payloads(msgs: seq<Msg>): (r: seq<seq<byte>>)
    ensures |r| == |msgs|
    ensures forall i :: 0 <= i < |msgs| ==> r[i] == msgs[i].payload
  {
    if msgs == [] then [] else [msgs[0].payload] + Payloads(msgs[1..])
  }

  /** A receiver that changes keys exactly where it meets NEWKEYS. */
  function OpenAll(env: Env, x: Rx, keys: seq<Keys>): (seq<seq<byte>>, Rx, seq<Keys>)
    requires RxOk(x)
    decreases |x.buf|
  {
    var (x1, r) := RxStep(env, x);
    if !r.Got? then ([], x1, keys)
    else
      var (d, keys1) := Switch(x1.dir, r.payload, keys);
      var (rest, x2, keys2) := OpenAll(env, x1.(dir := d), keys1);
      ([r.payload] + rest, x2, keys2)
  }

  lemma EmptyBuffer(env: Env, d: Dir, stale: uint32)
    ensures RxStep(env, Rx(d, [], false, stale)) == (Rx(d, [], false, stale), NeedMore)
  {
  }

  lemma OpenFirst(env: Env, d: Dir, m: Msg, rest: seq<byte>, keys: seq<Keys>, stale: uint32)
    requires Sendable(d, m.payload, m.pad)
    ensures var (d1, keys1) := Switch(AfterSeal(d, m.payload, m.pad), m.payload, keys);
      var (got, x, left) := OpenAll(env, Rx(d1, rest, false, 1 + |m.payload| + |m.pad|), keys1);
      OpenAll(env, Rx(d, Seal(env, d, m.payload, m.pad) + rest, false, stale), keys) == ([m.payload] + got, x, left)
  {
    hide RxStep;
    hide Seal;
    OpenSealed(env, d, m.payload, m.pad, rest, stale);
  }

  /** Record-layer round trip over whole runs, key changes included: the receiver gets exactly the payloads, in
      order, and ends with the sender's keys, keystream position and sequence number and an empty buffer. */
  lemma {:induction false} StreamRoundTrip(env: Env, d: Dir, msgs: seq<Msg>, keys: seq<Keys>, stale: uint32)
    requires AllSendable(d, msgs, keys)
    ensures var s := SealAll(env, d, msgs, keys);
      var (got, x, left) := OpenAll(env, Rx(d, s.bytes, false, stale), keys);
      got == Payloads(msgs) && x.dir == s.dir && x.buf == [] && !x.haveLen && left == s.keys
    decreases |msgs|
  {
    hide RxStep;
    hide Seal;
    if msgs == [] {
      EmptyBuffer(env, d, stale);
    } else {
      var m := msgs[0];
      var (d1, keys1) := Switch(AfterSeal(d, m.payload, m.pad), m.payload, keys);
      OpenFirst(env, d, m, SealAll(env, d1, msgs[1..], keys1).bytes, keys, stale);
      StreamRoundTrip(env, d1, msgs[1..], keys1, 1 + |m.payload| + |m.pad|);
    }
  }

  lemma {:induction false} SealAllAppend(env: Env, d: Dir, a: seq<Msg>, b: seq<Msg>, keys: seq<Keys>)
    ensures var s := SealAll(env, d, a, keys);
      var t := SealAll(env, s.dir, b, s.keys);
      SealAll(env, d, a + b, keys) == Sealed(s.bytes + t.bytes, t.dir, t.keys)
      && (AllSendable(d, a + b, keys) <==> AllSendable(d, a, keys) && AllSendable(s.dir, b, s.keys))
    decreases |a|
  {
    if a == [] {
      assert a + b == b;
    } else {
      var (d1, keys1) := Switch(AfterSeal(d, a[0].payload, a[0].pad), a[0].payload, keys);
      assert (a + b)[1..] == a[1..] + b && (a + b)[0] == a[0];
      SealAllAppend(env, d1, a[1..], b, keys1);
      var s1 := SealAll(env, d1, a[1..], keys1);
      var t := SealAll(env, s1.dir, b, s1.keys);
      var w := Seal(env, d, a[0].payload, a[0].pad);
      assert w + (s1.bytes + t.bytes) == (w + s1.bytes) + t.bytes;
    }
  }

  function CountNewKeys(msgs: seq<Msg>): nat {
    if msgs == [] then 0
    else (if IsNewKeys(msgs[0].payload) then 1 else 0) + CountNewKeys(msgs[1..])
  }

  lemma {:induction false} CountNewKeysAppend(a: seq<Msg>, b: seq<Msg>)
    ensures CountNewKeys(a + b) == CountNewKeys(a) + CountNewKeys(b)
    decreases |a|
  {
    if a == [] {
      assert a + b == b;
    } else {
      assert (a + b)[1..] == a[1..] + b;
      CountNewKeysAppend(a[1..], b);
    }
  }

  /** Keys nobody has reached yet make no difference. */
  lemma {:induction false} SealAllMoreKeys(env: Env, d: Dir, msgs: seq<Msg>, keys: seq<Keys>, more: seq<Keys>)
    requires CountNewKeys(msgs) == |keys|
    ensures var s := SealAll(env, d, msgs, keys);
      s.keys == [] && SealAll(env, d, msgs, keys + more) == s.(keys := more)
      && (AllSendable(d, msgs, keys) <==> AllSendable(d, msgs, keys + more))
    decreases |msgs|
  {
    if msgs == [] {
      assert keys + more == more;
    } else {
      var (d1, keys1) := Switch(AfterSeal(d, msgs[0].payload, msgs[0].pad), msgs[0].payload, keys);
      assert IsNewKeys(msgs[0].payload) ==> (keys + more)[1..] == keys1 + more;
      SealAllMoreKeys(env, d1, msgs[1..], keys1, more);
    }
  }
}
