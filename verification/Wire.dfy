/** The SSH wire format (RFC 4251 section 5): the WBUF writer with its sticky error, and the RBUF reader. */
module Wire {
  import opened Bytes

  /** An SSH string. */
  function Str(d: seq<byte>): seq<byte> {
    PutU32(Low32(|d|)) + d
  }

  // ---- writer ----

  datatype WState = WState(data: seq<byte>, cap: nat, err: bool)

  function WBytes(w: WState, d: seq<byte>): WState {
    if w.err || |w.data| + |d| > w.cap then w.(err := true) else w.(data := w.data + d)
  }

  function WByte(w: WState, v: byte): WState {
    WBytes(w, [v])
  }

  function WU32(w: WState, v: uint32): WState {
    WBytes(w, PutU32(v))
  }

  function WStr(w: WState, d: seq<byte>): WState {
    WBytes(WU32(w, Low32(|d|)), d)
  }

  function StripZeros(d: seq<byte>): seq<byte> {
    if d != [] && d[0] == 0 then StripZeros(d[1..]) else d
  }

  function WMpint(w: WState, d: seq<byte>): WState {
    var s := StripZeros(d);
    if |s| > 0 && s[0] >= 0x80 then WBytes(WByte(WU32(w, Low32(|s| + 1)), 0), s)
    else WStr(w, s)
  }

  /** The same struct as the source's WBUF: a window onto a caller's buffer. */
  class WBuf {
    const p: array<byte>
    const cap: nat
    var len: nat
    var err: bool

    ghost predicate Valid()
      reads this
    {
      len <= cap <= p.Length
    }

    ghost function State(): WState
      requires Valid()
      reads this, p
    {
      WState(p[..len], cap, err)
    }

    constructor (p: array<byte>, cap: nat)
      requires cap <= p.Length
      ensures Valid() && this.p == p && this.cap == cap
      ensures State() == WState([], cap, false)
    {
      this.p := p;
      this.cap := cap;
      this.len := 0;
      this.err := false;
    }

    // An overflow writes nothing, and nothing outside [old(len), cap) ever changes.
    method PutBytes(d: seq<byte>)
      requires Valid()
      modifies this, p
      ensures Valid() && State() == WBytes(old(State()), d)
      ensures p[..old(len)] == old(p[..len]) && p[cap..] == old(p[cap..])
      ensures err == (old(err) || old(len) + |d| > cap)
      ensures !err ==> p[..len] == old(p[..len]) + d
    {
      if err || len + |d| > cap {
        err := true;
        return;
      }
      forall i | 0 <= i < |d| {
        p[len + i] := d[i];
      }
      len := len + |d|;
      assert p[..len] == old(p[..len]) + d;
    }

    method PutByte(v: byte)
      requires Valid()
      modifies this, p
      ensures Valid() && State() == WByte(old(State()), v)
      ensures p[..old(len)] == old(p[..len]) && p[cap..] == old(p[cap..])
      ensures err == (old(err) || old(len) + 1 > cap)
      ensures !err ==> p[..len] == old(p[..len]) + [v]
    {
      PutBytes([v]);
    }

    method PutInt(v: uint32)
      requires Valid()
      modifies this, p
      ensures Valid() && State() == WU32(old(State()), v)
      ensures p[..old(len)] == old(p[..len]) && p[cap..] == old(p[cap..])
      ensures err == (old(err) || old(len) + 4 > cap)
      ensures !err ==> p[..len] == old(p[..len]) + PutU32(v)
    {
      PutBytes(PutU32(v));
    }

    method PutStr(d: seq<byte>)
      requires Valid()
      modifies this, p
      ensures Valid() && State() == WStr(old(State()), d)
      ensures p[..old(len)] == old(p[..len]) && p[cap..] == old(p[cap..])
      ensures err == (old(err) || old(len) + 4 + |d| > cap)
      ensures !err ==> p[..len] == old(p[..len]) + Str(d)
    {
      ghost var n, before := len, p[..len];
      PutInt(Low32(|d|));
      ghost var mid := p[..len];
      PutBytes(d);
      assert p[..n] == mid[..n] == before;
      Associates(before, PutU32(Low32(|d|)), d);
    }

    method PutMpint(d: seq<byte>)
      requires Valid()
      modifies this, p
      ensures Valid() && State() == WMpint(old(State()), d)
      ensures p[..old(len)] == old(p[..len]) && p[cap..] == old(p[cap..])
    {
      var s := d;
      while |s| > 0 && s[0] == 0
        invariant StripZeros(s) == StripZeros(d)
        decreases |s|
      {
        s := s[1..];
      }
      if |s| > 0 && s[0] >= 0x80 {
        ghost var n, before := len, p[..len];
        PutInt(Low32(|s| + 1));
        ghost var mid := p[..len];
        PutByte(0);
        assert p[..n] == p[..|mid|][..n] == mid[..n] == before;
        ghost var mid2 := p[..len];
        PutBytes(s);
        assert p[..n] == mid2[..n] == before;
      } else {
        PutStr(s);
      }
    }
  }

  // ---- reader ----

  /** RBUF: a cursor whose error sticks. Every read after an error returns zero or the empty string. */
  datatype Cursor = Cursor(p: seq<byte>, pos: nat, err: bool)

  function RInit(p: seq<byte>): Cursor {
    Cursor(p, 0, false)
  }

  function RByte(r: Cursor): (byte, Cursor) {
    if r.err || r.pos + 1 > |r.p| then (0, r.(err := true))
    else (r.p[r.pos], r.(pos := r.pos + 1))
  }

  function RU32(r: Cursor): (uint32, Cursor) {
    if r.err || r.pos + 4 > |r.p| then (0, r.(err := true))
    else (GetU32(r.p[r.pos..]), r.(pos := r.pos + 4))
  }

  function RStr(r: Cursor): (seq<byte>, Cursor) {
    var (l, r1) := RU32(r);
    if r1.err || r1.pos + l > |r1.p| then ([], r1.(err := true))
    else (r1.p[r1.pos..r1.pos + l], r1.(pos := r1.pos + l))
  }

  class RBuf {
    const p: seq<byte>
    var pos: nat
    var err: bool

    ghost function State(): Cursor
      reads this
    {
      Cursor(p, pos, err)
    }

    constructor (p: seq<byte>)
      ensures State() == RInit(p)
    {
      this.p := p;
      this.pos := 0;
      this.err := false;
    }

    method GetByte() returns (v: byte)
      modifies this
      ensures (v, State()) == RByte(old(State()))
    {
      if err || pos + 1 > |p| {
        err := true;
        return 0;
      }
      v := p[pos];
      pos := pos + 1;
    }

    method GetInt() returns (v: uint32)
      modifies this
      ensures (v, State()) == RU32(old(State()))
    {
      if err || pos + 4 > |p| {
        err := true;
        return 0;
      }
      v := GetU32(p[pos..]);
      pos := pos + 4;
    }

    method GetStr() returns (d: seq<byte>)
      modifies this
      ensures (d, State()) == RStr(old(State()))
    {
      var l := GetInt();
      if err || pos + l > |p| {
        err := true;
        return [];
      }
      d := p[pos..pos + l];
      pos := pos + l;
    }
  }

  // ---- mpint: value, canonical form ----

  function BeVal(d: seq<byte>): nat {
    if d == [] then 0 else BeVal(d[..|d| - 1]) * 256 + d[|d| - 1]
  }

  /** The body WMpint puts after the length. */
  function MpintBody(d: seq<byte>): seq<byte> {
    var s := StripZeros(d);
    if |s| > 0 && s[0] >= 0x80 then [0] + s else s
  }

  /** Neither negative nor longer than needed: RFC 4251 section 5. */
  predicate Canonical(b: seq<byte>) {
    b == [] || (b[0] < 0x80 && (b[0] == 0 ==> |b| >= 2 && b[1] >= 0x80))
  }

  predicate NonNegative(b: seq<byte>) {
    b == [] || b[0] < 0x80
  }

  lemma {:induction false} BeValLeadingZero(d: seq<byte>)
    ensures BeVal([0] + d) == BeVal(d)
  {
    if d != [] {
      BeValLeadingZero(d[..|d| - 1]);
      assert ([0] + d)[..|d|] == [0] + d[..|d| - 1];
    }
  }

  lemma {:induction false} StripZerosValue(d: seq<byte>)
    ensures BeVal(StripZeros(d)) == BeVal(d)
    ensures StripZeros(d) == [] || StripZeros(d)[0] != 0
    ensures |StripZeros(d)| <= |d| && (|StripZeros(d)| == |d| ==> StripZeros(d) == d)
  {
    if d != [] && d[0] == 0 {
      StripZerosValue(d[1..]);
      BeValLeadingZero(d[1..]);
      assert d == [0] + d[1..];
    }
  }

  lemma {:induction false} BeValPositive(d: seq<byte>)
    requires d != [] && d[0] != 0
    ensures BeVal(d) > 0
  {
    if |d| > 1 {
      BeValPositive(d[..|d| - 1]);
    }
  }

  lemma {:induction false} MagnitudeUnique(x: seq<byte>, y: seq<byte>)
    requires x == [] || x[0] != 0
    requires y == [] || y[0] != 0
    requires BeVal(x) == BeVal(y)
    ensures x == y
  {
    if x == [] || y == [] {
      if x != [] { BeValPositive(x); }
      if y != [] { BeValPositive(y); }
    } else {
      var a, b := x[..|x| - 1], y[..|y| - 1];
      assert BeVal(x) == BeVal(a) * 256 + x[|x| - 1] && BeVal(y) == BeVal(b) * 256 + y[|y| - 1];
      assert BeVal(a) == BeVal(x) / 256 && BeVal(b) == BeVal(y) / 256;
      MagnitudeUnique(a, b);
      assert x == a + [x[|x| - 1]] && y == b + [y[|y| - 1]];
    }
  }

  lemma CanonicalUnique(x: seq<byte>, y: seq<byte>)
    requires Canonical(x) && Canonical(y) && BeVal(x) == BeVal(y)
    ensures x == y
  {
    var mx := if x != [] && x[0] == 0 then x[1..] else x;
    var my := if y != [] && y[0] == 0 then y[1..] else y;
    BeValLeadingZero(mx);
    BeValLeadingZero(my);
    assert x != [] && x[0] == 0 ==> x == [0] + mx;
    assert y != [] && y[0] == 0 ==> y == [0] + my;
    MagnitudeUnique(mx, my);
  }

  /** WMpint keeps the big-endian value, and its body is the only canonical form of that value and
      the shortest non-negative one. */
  lemma MpintCanonical(d: seq<byte>, other: seq<byte>)
    ensures BeVal(MpintBody(d)) == BeVal(d) && Canonical(MpintBody(d))
    ensures Canonical(other) && BeVal(other) == BeVal(d) ==> other == MpintBody(d)
    ensures NonNegative(other) && BeVal(other) == BeVal(d) ==> |MpintBody(d)| <= |other|
  {
    StripZerosValue(d);
    BeValLeadingZero(StripZeros(d));
    if Canonical(other) && BeVal(other) == BeVal(d) {
      CanonicalUnique(other, MpintBody(d));
    }
    if NonNegative(other) && BeVal(other) == BeVal(d) {
      StripZerosValue(other);
      BeValLeadingZero(StripZeros(other));
      CanonicalUnique(MpintBody(other), MpintBody(d));
    }
  }

  // ---- round trip ----

  datatype Item = IByte(v: byte) | IU32(n: uint32) | IStr(s: seq<byte>) | IMpint(d: seq<byte>)

  function WItem(w: WState, i: Item): WState {
    match i
    case IByte(v) => WByte(w, v)
    case IU32(n) => WU32(w, n)
    case IStr(s) => WStr(w, s)
    case IMpint(d) => WMpint(w, d)
  }

  function WAll(w: WState, items: seq<Item>): WState
    decreases |items|
  {
    if items == [] then w else WAll(WItem(w, items[0]), items[1..])
  }

  // Kinds of items, where only the kind matters.
  const NAME := IStr([])
  const WORD := IU32(0)
  const FLAG := IByte(0)

  function Text(i: Item): seq<byte> {
    if i.IStr? then i.s else []
  }

  function Number(i: Item): uint32 {
    if i.IU32? then i.n else 0
  }

  /** Reads one value of the kind of `like`; an mpint comes back as its body. */
  function RItem(r: Cursor, like: Item): (Item, Cursor) {
    match like
    case IByte(_) => var (v, r1) := RByte(r); (IByte(v), r1)
    case IU32(_) => var (n, r1) := RU32(r); (IU32(n), r1)
    case IStr(_) => var (s, r1) := RStr(r); (IStr(s), r1)
    case IMpint(_) => var (d, r1) := RStr(r); (IMpint(d), r1)
  }

  function RAll(r: Cursor, like: seq<Item>): (res: (seq<Item>, Cursor))
    ensures |res.0| == |like|
    decreases |like|
  {
    if like == [] then ([], r)
    else
      var (i, r1) := RItem(r, like[0]);
      var (rest, r2) := RAll(r1, like[1..]);
      ([i] + rest, r2)
  }

  function Normal(i: Item): Item {
    if i.IMpint? then IMpint(MpintBody(i.d)) else i
  }

  function NormalAll(items: seq<Item>): seq<Item> {
    seq(|items|, k requires 0 <= k < |items| => Normal(items[k]))
  }

  /** An error sticks, what is already written never changes, and the capacity is never exceeded. */
  lemma WItemSticky(w: WState, i: Item)
    ensures WItem(w, i).cap == w.cap && w.data <= WItem(w, i).data
    ensures w.err ==> WItem(w, i) == w
    ensures |w.data| <= w.cap ==> |WItem(w, i).data| <= w.cap
  {
  }

  lemma {:induction false} WAllSticky(w: WState, items: seq<Item>)
    ensures WAll(w, items).cap == w.cap && w.data <= WAll(w, items).data
    ensures w.err ==> WAll(w, items) == w
    ensures |w.data| <= w.cap ==> |WAll(w, items).data| <= w.cap
    decreases |items|
  {
    if items != [] {
      WItemSticky(w, items[0]);
      WAllSticky(WItem(w, items[0]), items[1..]);
    }
  }

  /** The same writer with something written in front. */
  function Shifted(pre: seq<byte>, w: WState): WState {
    WState(pre + w.data, |pre| + w.cap, w.err)
  }

  lemma WItemShift(pre: seq<byte>, w: WState, i: Item)
    ensures WItem(Shifted(pre, w), i) == Shifted(pre, WItem(w, i))
  {
    hide PutU32;
    hide StripZeros;
    forall x: WState, d: seq<byte>
      ensures WBytes(Shifted(pre, x), d) == Shifted(pre, WBytes(x, d))
    {
      Associates(pre, x.data, d);
    }
  }

  /** What is already there makes no difference to what is written behind it. */
  lemma {:induction false} WAllShift(pre: seq<byte>, w: WState, items: seq<Item>)
    ensures WAll(Shifted(pre, w), items) == Shifted(pre, WAll(w, items))
    decreases |items|
  {
    hide WItem;
    if items != [] {
      WItemShift(pre, w, items[0]);
      WAllShift(pre, WItem(w, items[0]), items[1..]);
    }
  }

  // ---- sizes ----

  function ItemSize(i: Item): nat {
    match i
    case IByte(_) => 1
    case IU32(_) => 4
    case IStr(s) => 4 + |s|
    case IMpint(d) => 5 + |d|
  }

  function SizeOf(items: seq<Item>): nat
    decreases |items|
  {
    if items == [] then 0 else ItemSize(items[0]) + SizeOf(items[1..])
  }

  lemma SizeOfTwo(a: Item, b: Item)
    ensures SizeOf([a, b]) == ItemSize(a) + ItemSize(b)
  {
    hide ItemSize;
    var none: seq<Item> := [];
    assert [a, b][1..] == [b] && [b][1..] == none;
    assert SizeOf(none) == 0 && SizeOf([b]) == ItemSize(b) + 0;
  }

  lemma SizeOfThree(a: Item, b: Item, c: Item)
    ensures SizeOf([a, b, c]) == ItemSize(a) + ItemSize(b) + ItemSize(c)
  {
    hide ItemSize;
    SizeOfTwo(b, c);
    assert [a, b, c][1..] == [b, c];
  }

  lemma {:induction false} WAllSize(w: WState, items: seq<Item>)
    requires !w.err && |w.data| + SizeOf(items) <= w.cap
    ensures !WAll(w, items).err && |WAll(w, items).data| <= |w.data| + SizeOf(items)
    decreases |items|
  {
    if items != [] {
      if items[0].IMpint? {
        StripZerosValue(items[0].d);
      }
      WAllSize(WItem(w, items[0]), items[1..]);
    }
  }

  lemma ReadStrBack(before: seq<byte>, s: seq<byte>, rest: seq<byte>)
    requires |s| < TWO32
    ensures var all := before + (PutU32(|s|) + s) + rest;
      RStr(Cursor(all, |before|, false)) == (s, Cursor(all, |before| + 4 + |s|, false))
  {
    var all := before + (PutU32(|s|) + s) + rest;
    assert all[|before|..] == PutU32(|s|) + (s + rest);
    GetPut(|s|, s + rest);
    assert all[|before| + 4..|before| + 4 + |s|] == s;
  }

  lemma WStrData(w: WState, s: seq<byte>)
    requires !WStr(w, s).err && w.cap < TWO32
    ensures |s| < TWO32 && WStr(w, s).data == w.data + (PutU32(|s|) + s)
  {
    hide PutU32;
    Associates(w.data, PutU32(Low32(|s|)), s);
  }

  lemma WMpintIsWStr(w: WState, m: seq<byte>)
    requires !WMpint(w, m).err && w.cap < TWO32
    ensures WMpint(w, m) == WStr(w, MpintBody(m))
  {
    var s := StripZeros(m);
    if |s| > 0 && s[0] >= 0x80 {
      var w1 := WU32(w, Low32(|s| + 1));
      assert w1.data + [0] + s == w1.data + ([0] + s);
      assert WByte(w1, 0).data == w1.data + [0];
    }
  }

  lemma ReadItemBack(w: WState, i: Item, rest: seq<byte>)
    requires !WItem(w, i).err && w.cap < TWO32
    ensures var d := WItem(w, i).data;
      RItem(Cursor(d + rest, |w.data|, false), i) == (Normal(i), Cursor(d + rest, |d|, false))
  {
    hide PutU32;
    hide GetU32;
    hide StripZeros;
    match i
    case IByte(v) =>
    case IU32(n) =>
      var d := WItem(w, i).data;
      assert (d + rest)[|w.data|..] == PutU32(n) + rest;
      GetPut(n, rest);
    case IStr(s) =>
      WStrData(w, s);
      ReadStrBack(w.data, s, rest);
    case IMpint(m) =>
      WMpintIsWStr(w, m);
      WStrData(w, MpintBody(m));
      ReadStrBack(w.data, MpintBody(m), rest);
  }

  lemma NormalFirst(items: seq<Item>)
    requires items != []
    ensures NormalAll(items) == [Normal(items[0])] + NormalAll(items[1..])
  {
  }

  /** Whatever is written without overflow is read back, item for item, and the reader ends where the writer did. */
  lemma {:induction false} RoundTrip(w: WState, items: seq<Item>, rest: seq<byte>)
    requires !WAll(w, items).err && w.cap < TWO32
    ensures var d := WAll(w, items).data;
      RAll(Cursor(d + rest, |w.data|, false), items) == (NormalAll(items), Cursor(d + rest, |d|, false))
    decreases |items|
  {
    var d := WAll(w, items).data;
    hide WItem;
    hide RItem;
    hide Normal;
    if items == [] {
      assert NormalAll(items) == [];
    } else {
      var w1 := WItem(w, items[0]);
      WItemSticky(w, items[0]);
      WAllSticky(w1, items[1..]);
      assert d == WAll(w1, items[1..]).data && !w1.err;
      var tail := d[|w1.data|..] + rest;
      assert w1.data + d[|w1.data|..] == d;
      Associates(w1.data, d[|w1.data|..], rest);
      ReadItemBack(w, items[0], tail);
      RoundTrip(w1, items[1..], rest);
      NormalFirst(items);
    }
  }

  // ---- messages as RFC 4251 writes them ----

  /** The bytes of one item: section 5. */
  function Flat(i: Item): seq<byte> {
    match i
    case IByte(v) => [v]
    case IU32(n) => PutU32(n)
    case IStr(s) => Str(s)
    case IMpint(d) => Str(MpintBody(d))
  }

  /** Items one behind the other, and nothing else. */
  function Encoded(items: seq<Item>): seq<byte>
    decreases |items|
  {
    if items == [] then [] else Flat(items[0]) + Encoded(items[1..])
  }

  lemma WItemEncodes(w: WState, i: Item)
    requires !WItem(w, i).err && w.cap < TWO32
    ensures WItem(w, i).data == w.data + Flat(i)
  {
    hide PutU32;
    hide StripZeros;
    hide MpintBody;
    match i
    case IByte(v) =>
    case IU32(n) =>
    case IStr(s) => WStrData(w, s);
    case IMpint(d) =>
      WMpintIsWStr(w, d);
      WStrData(w, MpintBody(d));
  }

  /** A writer that does not overflow writes exactly that. */
  lemma {:induction false} WAllEncodes(w: WState, items: seq<Item>)
    requires !WAll(w, items).err && w.cap < TWO32
    ensures WAll(w, items).data == w.data + Encoded(items)
    decreases |items|
  {
    hide WItem;
    hide Flat;
    if items == [] {
      assert w.data + [] == w.data;
    } else {
      var w1 := WItem(w, items[0]);
      WItemSticky(w, items[0]);
      WAllSticky(w1, items[1..]);
      WItemEncodes(w, items[0]);
      WAllEncodes(w1, items[1..]);
      Associates(w.data, Flat(items[0]), Encoded(items[1..]));
    }
  }

  /** And a reader gets it back, whatever follows. */
  lemma EncodedReads(items: seq<Item>, rest: seq<byte>)
    requires SizeOf(items) < TWO32
    ensures var d := Encoded(items);
      RAll(RInit(d + rest), items) == (NormalAll(items), Cursor(d + rest, |d|, false))
    ensures |Encoded(items)| <= SizeOf(items)
  {
    hide WAll;
    hide RAll;
    hide Encoded;
    hide SizeOf;
    var w := WState([], SizeOf(items), false);
    WAllSize(w, items);
    WAllEncodes(w, items);
    assert [] + Encoded(items) == Encoded(items);
    RoundTrip(w, items, rest);
  }

  predicate SameKind(a: Item, b: Item) {
    a.IByte? == b.IByte? && a.IU32? == b.IU32? && a.IStr? == b.IStr? && a.IMpint? == b.IMpint?
  }

  predicate SameKinds(a: seq<Item>, b: seq<Item>) {
    |a| == |b| && forall i :: 0 <= i < |a| ==> SameKind(a[i], b[i])
  }

  /** Of what is to be read only the kinds matter. */
  lemma {:induction false} ReadsByKind(r: Cursor, a: seq<Item>, b: seq<Item>)
    requires SameKinds(a, b)
    ensures RAll(r, a) == RAll(r, b)
    decreases |a|
  {
    hide RByte;
    hide RU32;
    hide RStr;
    if a != [] {
      assert SameKind(a[0], b[0]);
      forall i | 0 <= i < |a| - 1
        ensures SameKind(a[1..][i], b[1..][i])
      {
        assert SameKind(a[i + 1], b[i + 1]);
      }
      ReadsByKind(RItem(r, a[0]).1, a[1..], b[1..]);
    }
  }

  /** A message of integers and strings reads back as those, with nothing behind. */
  lemma MessageReads(items: seq<Item>, like: seq<Item>)
    requires SizeOf(items) < TWO32 && SameKinds(items, like) && forall i :: 0 <= i < |items| ==> !items[i].IMpint?
    ensures RAll(RInit(Encoded(items)), like) == (items, Cursor(Encoded(items), |Encoded(items)|, false))
  {
    hide SameKinds;
    hide Encoded;
    hide RAll;
    hide SizeOf;
    EncodedReads(items, []);
    assert Encoded(items) + [] == Encoded(items);
    ReadsByKind(RInit(Encoded(items)), items, like);
    assert NormalAll(items) == items;
  }

  lemma EncodedOne(i: Item)
    ensures Encoded([i]) == Flat(i)
  {
    hide Flat;
    assert [i][1..] == [] && Flat(i) + [] == Flat(i);
  }

  lemma EncodedTwo(i: Item, j: Item)
    ensures Encoded([i, j]) == Flat(i) + Flat(j)
  {
    hide Flat;
    EncodedOne(j);
    assert [i, j][1..] == [j];
  }

  /** Two messages one behind the other. */
  lemma {:induction false} EncodedAppend(a: seq<Item>, b: seq<Item>)
    ensures Encoded(a + b) == Encoded(a) + Encoded(b)
    decreases |a|
  {
    hide Flat;
    if a == [] {
      assert a + b == b && [] + Encoded(b) == Encoded(b);
    } else {
      assert (a + b)[0] == a[0] && (a + b)[1..] == a[1..] + b;
      EncodedAppend(a[1..], b);
      Associates(Flat(a[0]), Encoded(a[1..]), Encoded(b));
    }
  }

  lemma EncodedSnoc(a: seq<Item>, i: Item)
    ensures Encoded(a + [i]) == Encoded(a) + Flat(i)
  {
    hide Flat;
    hide Encoded;
    EncodedAppend(a, [i]);
    EncodedOne(i);
  }

  lemma EncodedThree(a: Item, b: Item, c: Item)
    ensures Encoded([a, b, c]) == Flat(a) + Flat(b) + Flat(c)
  {
    hide Flat;
    hide Encoded;
    EncodedTwo(a, b);
    EncodedSnoc([a, b], c);
    assert [a, b] + [c] == [a, b, c];
  }

  lemma EncodedFour(a: Item, b: Item, c: Item, d: Item)
    ensures Encoded([a, b, c, d]) == Flat(a) + Flat(b) + Flat(c) + Flat(d)
  {
    hide Flat;
    hide Encoded;
    EncodedThree(a, b, c);
    EncodedSnoc([a, b, c], d);
    assert [a, b, c] + [d] == [a, b, c, d];
  }

  lemma EncodedEight(i: seq<Item>)
    requires |i| == 8
    ensures Encoded(i) == Flat(i[0]) + Flat(i[1]) + Flat(i[2]) + Flat(i[3]) + Flat(i[4]) + Flat(i[5]) + Flat(i[6]) + Flat(i[7])
  {
    hide Flat;
    hide Encoded;
    EncodedFour(i[0], i[1], i[2], i[3]);
    EncodedSnoc([i[0], i[1], i[2], i[3]], i[4]);
    EncodedSnoc(i[..5], i[5]);
    EncodedSnoc(i[..6], i[6]);
    EncodedSnoc(i[..7], i[7]);
    assert i[..4] == [i[0], i[1], i[2], i[3]];
    assert i[..4] + [i[4]] == i[..5] && i[..5] + [i[5]] == i[..6] && i[..6] + [i[6]] == i[..7] && i[..7] + [i[7]] == i;
  }

  /** The four bytes of an integer are its big-endian value. */
  lemma PutU32Value(v: uint32)
    ensures BeVal(PutU32(v)) == v
  {
    var b := PutU32(v);
    assert b[..3][..2][..1][..0] == [];
    assert BeVal(b[..3][..2][..1]) == b[0];
    assert BeVal(b[..3][..2]) == b[0] as int * 256 + b[1];
    assert BeVal(b[..3]) == (b[0] as int * 256 + b[1]) * 256 + b[2];
    FourDigits(v);
  }

  /** Four bytes of one value are the same bytes. */
  lemma FourUnique(a: seq<byte>, b: seq<byte>)
    requires |a| == |b| == 4 && BeVal(a) == BeVal(b)
    ensures a == b
  {
    SameLengthUnique(a, b);
  }

  lemma {:induction false} SameLengthUnique(a: seq<byte>, b: seq<byte>)
    requires |a| == |b| && BeVal(a) == BeVal(b)
    ensures a == b
    decreases |a|
  {
    if a != [] {
      var n := |a| - 1;
      assert BeVal(a) == BeVal(a[..n]) * 256 + a[n] && BeVal(b) == BeVal(b[..n]) * 256 + b[n];
      assert BeVal(a[..n]) == BeVal(a) / 256 && BeVal(b[..n]) == BeVal(b) / 256;
      SameLengthUnique(a[..n], b[..n]);
      assert a == a[..n] + [a[n]] && b == b[..n] + [b[n]];
    }
  }

  // ---- packets: a number and items ----

  function Message(number: byte, items: seq<Item>): (p: seq<byte>)
    ensures p != [] && p[0] == number
  {
    [number] + Encoded(items)
  }

  /** The items behind the number, if they are of these kinds and nothing follows. */
  function Fields(p: seq<byte>, like: seq<Item>): (r: Option<seq<Item>>)
    ensures r.Some? ==> |r.value| == |like|
  {
    if p == [] then None
    else
      var (got, end) := RAll(RInit(p[1..]), like);
      if end == Cursor(p[1..], |p| - 1, false) then Some(got) else None
  }

  lemma MessageFields(number: byte, items: seq<Item>, like: seq<Item>)
    requires SizeOf(items) < TWO32 && SameKinds(items, like) && forall i :: 0 <= i < |items| ==> !items[i].IMpint?
    ensures Fields(Message(number, items), like) == Some(items)
  {
    hide RAll;
    hide SizeOf;
    hide SameKinds;
    hide Encoded;
    MessageReads(items, like);
    assert Message(number, items)[1..] == Encoded(items);
  }

  lemma MessageNone(x: byte)
    ensures Message(x, []) == [x]
  {
  }

  lemma MessageOne(x: byte, a: Item)
    ensures Message(x, [a]) == [x] + Flat(a)
  {
    hide Flat;
    hide Encoded;
    EncodedOne(a);
  }

  lemma MessageTwo(x: byte, a: Item, b: Item)
    ensures Message(x, [a, b]) == [x] + Flat(a) + Flat(b)
  {
    hide Flat;
    hide Encoded;
    EncodedTwo(a, b);
    Associates([x], Flat(a), Flat(b));
  }

  lemma MessageThree(x: byte, a: Item, b: Item, c: Item)
    ensures Message(x, [a, b, c]) == [x] + Flat(a) + Flat(b) + Flat(c)
  {
    hide Flat;
    hide Encoded;
    EncodedThree(a, b, c);
    Associates([x], Flat(a), Flat(b));
    Associates([x], Flat(a) + Flat(b), Flat(c));
  }

  lemma MessageFour(x: byte, a: Item, b: Item, c: Item, d: Item)
    ensures Message(x, [a, b, c, d]) == [x] + Flat(a) + Flat(b) + Flat(c) + Flat(d)
  {
    hide Flat;
    hide Encoded;
    EncodedFour(a, b, c, d);
    Associates([x], Flat(a), Flat(b));
    Associates([x], Flat(a) + Flat(b), Flat(c));
    Associates([x], Flat(a) + Flat(b) + Flat(c), Flat(d));
  }

  lemma ReadNext(r: Cursor, a: Item, like: seq<Item>)
    ensures var (i, r1) := RItem(r, a);
      var (rest, end) := RAll(r1, like);
      RAll(r, [a] + like) == ([i] + rest, end)
  {
    hide RItem;
    assert ([a] + like)[1..] == like;
  }

  lemma ReadOne(r: Cursor, a: Item)
    ensures var (i, r1) := RItem(r, a);
      RAll(r, [a]) == ([i], r1)
  {
    hide RItem;
    ReadNext(r, a, []);
    assert [a] + [] == [a] && [RItem(r, a).0] + [] == [RItem(r, a).0];
  }

  lemma ReadTwo(r: Cursor, a: Item, b: Item)
    ensures var (i, r1) := RItem(r, a);
      var (j, r2) := RItem(r1, b);
      RAll(r, [a, b]) == ([i, j], r2)
  {
    hide RItem;
    var (i, r1) := RItem(r, a);
    var (j, r2) := RItem(r1, b);
    ReadNext(r1, b, []);
    ReadNext(r, a, [b]);
    assert [b] + [] == [b] && [a] + [b] == [a, b] && [j] + [] == [j] && [i] + [j] == [i, j];
  }

  lemma ReadThree(r: Cursor, a: Item, b: Item, c: Item)
    ensures var (i, r1) := RItem(r, a);
      var (j, r2) := RItem(r1, b);
      var (k, r3) := RItem(r2, c);
      RAll(r, [a, b, c]) == ([i, j, k], r3)
  {
    hide RItem;
    hide RAll;
    var (i, r1) := RItem(r, a);
    var rest := RAll(r1, [b, c]).0;
    ReadTwo(r1, b, c);
    ReadNext(r, a, [b, c]);
    assert [a] + [b, c] == [a, b, c] && [i] + rest == [i, rest[0], rest[1]];
  }

  lemma ReadFour(r: Cursor, a: Item, b: Item, c: Item, d: Item)
    ensures var (i, r1) := RItem(r, a);
      var (j, r2) := RItem(r1, b);
      var (k, r3) := RItem(r2, c);
      var (l, r4) := RItem(r3, d);
      RAll(r, [a, b, c, d]) == ([i, j, k, l], r4)
  {
    hide RItem;
    hide RAll;
    var (i, r1) := RItem(r, a);
    var rest := RAll(r1, [b, c, d]).0;
    ReadThree(r1, b, c, d);
    ReadNext(r, a, [b, c, d]);
    assert [a] + [b, c, d] == [a, b, c, d] && [i] + rest == [i, rest[0], rest[1], rest[2]];
  }
}
