/** The input half of the console shim: bytes from the client become keystrokes. First the decoder as a function of what it
    remembers, then the object that holds it together with the ring of keys. */
module ConsoleInput {
  import opened Bytes
  import O = ConsoleOutput

  const ESC: byte := 0x1B
  const CR: byte := 13
  const LF: byte := 10
  const ESC_BUF: nat := 24
  const KEY_RING: nat := 256
  const EXIT_INJECT_MAX: nat := 40
  const TWO64: int := 0x1_0000_0000_0000_0000

  // Scan codes.
  const SCAN_NULL: uint16 := 0
  const SCAN_UP: uint16 := 1
  const SCAN_DOWN: uint16 := 2
  const SCAN_RIGHT: uint16 := 3
  const SCAN_LEFT: uint16 := 4
  const SCAN_HOME: uint16 := 5
  const SCAN_END: uint16 := 6
  const SCAN_INSERT: uint16 := 7
  const SCAN_DELETE: uint16 := 8
  const SCAN_PAGE_UP: uint16 := 9
  const SCAN_PAGE_DOWN: uint16 := 10
  const SCAN_F1: uint16 := 11
  const SCAN_ESC: uint16 := 23

  /** EFI_KEY_DATA, as far as the shim fills it in. */
  datatype Key = Key(scan: uint16, ch: uint16, ctrl: bool)

  /** A control letter carries the flag; the four controls with keys of their own do not. */
  function KeyFor(scan: uint16, ch: uint16): Key {
    Key(scan, ch, scan == SCAN_NULL && 1 <= ch <= 26 && ch != 8 && ch != 9 && ch != 10 && ch != 13)
  }

  function Plain(b: byte): Key {
    KeyFor(SCAN_NULL, if b == 0x7F then 8 else b)
  }

  const RETURN: Key := Key(SCAN_NULL, 13, false)
  const ESCAPE: Key := Key(SCAN_ESC, 0, false)

  /** What the decoder remembers between bytes: an escape sequence so far, a character so far, and a carriage return. */
  datatype Dec = Dec(esc: seq<byte>, acc: nat, need: nat, lastCr: bool)

  const FRESH := Dec([], 0, 0, false)

  datatype Step = Step(d: Dec, keys: seq<Key>)

  // ---- escape sequences ----

  function LetterScan(b: byte): uint16 {
    match b
    case 65 => SCAN_UP
    case 66 => SCAN_DOWN
    case 67 => SCAN_RIGHT
    case 68 => SCAN_LEFT
    case 72 => SCAN_HOME
    case 70 => SCAN_END
    case 80 => SCAN_F1
    case 81 => SCAN_F1 + 1
    case 82 => SCAN_F1 + 2
    case 83 => SCAN_F1 + 3
    case _ => SCAN_NULL
  }

  function TildeScan(num: nat): uint16 {
    if num == 1 || num == 7 then SCAN_HOME
    else if num == 2 then SCAN_INSERT
    else if num == 3 then SCAN_DELETE
    else if num == 4 || num == 8 then SCAN_END
    else if num == 5 then SCAN_PAGE_UP
    else if num == 6 then SCAN_PAGE_DOWN
    else if 11 <= num <= 15 then SCAN_F1 + (num - 11)
    else if 17 <= num <= 21 then SCAN_F1 + (num - 12)
    else if num == 23 || num == 24 then SCAN_F1 + (num - 13)
    else SCAN_NULL
  }

  predicate IsDigit(b: byte) {
    48 <= b <= 57
  }

  /** The leading decimal number, in 64 bits. */
  function Number(s: seq<byte>, so: nat): (n: nat)
    decreases |s|
  {
    if s == [] || !IsDigit(s[0]) then so else Number(s[1..], (so * 10 + (s[0] - 48)) % TWO64)
  }

  function ScanKeys(scan: uint16): seq<Key> {
    if scan == SCAN_NULL then [] else [KeyFor(scan, 0)]
  }

  /** A control sequence: its parameter bytes, and the final byte that completes it. */
  function CsiKeys(params: seq<byte>, final: byte): seq<Key> {
    ScanKeys(if final == 126 then TildeScan(Number(params, 0)) else LetterScan(final))
  }

  // ---- one byte ----

  function InGround(d: Dec, b: byte): Step {
    if b >= 0xF0 then Step(d.(acc := b % 8, need := 3), [])
    else if b >= 0xE0 then Step(d.(acc := b % 0x10, need := 2), [])
    else if b >= 0xC0 then Step(d.(acc := b % 0x20, need := 1), [])
    else if b == CR then Step(d.(lastCr := true), [RETURN])
    else if b == LF then (if d.lastCr then Step(d.(lastCr := false), []) else Step(d, [RETURN]))
    else Step(d.(lastCr := false), [Plain(b)])
  }

  function InText(d: Dec, b: byte): Step {
    if b == ESC then Step(d.(esc := [ESC]), [])
    else if d.need > 0 && 0x80 <= b < 0xC0 then
      var acc := d.acc * 64 % TWO32 + b % 64;
      Step(d.(acc := acc, need := d.need - 1), if d.need == 1 && acc <= 0xFFFF then [KeyFor(SCAN_NULL, acc)] else [])
    else InGround(d.(need := 0), b)
  }

  function InEscape(d: Dec, b: byte): Step
    requires d.esc != []
  {
    var none := d.(esc := []);
    var esc := d.esc + [b];
    if |esc| == 2 then
      if b == 91 || b == 79 then Step(d.(esc := esc), [])
      else
        var s := InText(none, b);
        Step(s.d, [ESCAPE] + s.keys)
    else if esc[1] == 79 then Step(none, ScanKeys(LetterScan(b)))
    else if 0x40 <= b <= 0x7E then Step(none, CsiKeys(esc[2..|esc| - 1], b))
    else if |esc| >= ESC_BUF then Step(none, [])
    else Step(d.(esc := esc), [])
  }

  function Feed(d: Dec, b: byte): Step {
    if d.esc != [] then InEscape(d, b) else InText(d, b)
  }

  /** A whole stream. */
  function FeedAll(d: Dec, s: seq<byte>): Step
    decreases |s|
  {
    if s == [] then Step(d, [])
    else
      var a := Feed(d, s[0]);
      var b := FeedAll(a.d, s[1..]);
      Step(b.d, a.keys + b.keys)
  }

  /** An escape sequence that never completed is delivered as the ESC key and its other bytes as if typed. */
  function Flush(d: Dec): Step
    requires d.esc != []
  {
    var s := FeedAll(d.(esc := []), d.esc[1..]);
    Step(s.d, [ESCAPE] + s.keys)
  }

  lemma {:induction false} FeedAppend(d: Dec, a: seq<byte>, b: seq<byte>)
    ensures var s, t := FeedAll(d, a), FeedAll(FeedAll(d, a).d, b);
      FeedAll(d, a + b) == Step(t.d, s.keys + t.keys)
    decreases |a|
  {
    hide Feed;
    if a == [] {
      assert a + b == b;
      assert [] + FeedAll(d, b).keys == FeedAll(d, b).keys;
    } else {
      assert (a + b)[1..] == a[1..] + b;
      FeedAppend(Feed(d, a[0]).d, a[1..], b);
      Associates(Feed(d, a[0]).keys, FeedAll(Feed(d, a[0]).d, a[1..]).keys, FeedAll(FeedAll(d, a).d, b).keys);
    }
  }

  // ---- what the decoder can remember ----

  predicate EscOk(e: seq<byte>) {
    && |e| < ESC_BUF
    && (e != [] ==> e[0] == ESC)
    && (|e| >= 2 ==> (e[1] == 79 && |e| == 2) || (e[1] == 91 && forall i :: 2 <= i < |e| ==> !(0x40 <= e[i] <= 0x7E)))
  }

  /** At rest at most 23 bytes of an escape sequence are held, and they are a proper prefix of one; a character in
      progress lacks at most three bytes and has never more than 21 bits. */
  predicate DecOk(d: Dec) {
    && EscOk(d.esc)
    && d.need <= 3 && d.acc < 0x20_0000
    && (d.need == 3 ==> d.acc < 8) && (d.need == 2 ==> d.acc < 0x200) && (d.need == 1 ==> d.acc < 0x8000)
  }

  lemma TextOk(d: Dec, b: byte)
    requires DecOk(d) && d.esc == []
    ensures DecOk(InText(d, b).d)
  {
  }

  lemma EscapeOk(d: Dec, b: byte)
    requires DecOk(d) && d.esc != []
    ensures DecOk(InEscape(d, b).d)
  {
    hide InText;
    TextOk(d.(esc := []), b);
  }

  lemma {:induction false} StreamOk(d: Dec, s: seq<byte>)
    requires DecOk(d)
    ensures DecOk(FeedAll(d, s).d)
    decreases |s|
  {
    hide DecOk;
    hide InText;
    hide InEscape;
    if s != [] {
      FeedOk(d, s[0]);
      StreamOk(Feed(d, s[0]).d, s[1..]);
    }
  }

  lemma FeedOk(d: Dec, b: byte)
    requires DecOk(d)
    ensures DecOk(Feed(d, b).d)
  {
    hide DecOk;
    hide InText;
    hide InEscape;
    DecOkEsc(d);
    if d.esc != [] {
      EscapeOk(d, b);
    } else {
      TextOk(d, b);
    }
  }

  lemma DecOkEsc(d: Dec)
    requires DecOk(d)
    ensures DecOk(d.(esc := []))
  {
  }

  // ---- ASCII: one Return for each line end ----

  predicate PlainAscii(b: byte) {
    b < 0x80 && b != ESC
  }

  /** The stream with every CR LF, CR and LF written as one CR. */
  function OneReturn(s: seq<byte>): seq<byte>
    decreases |s|
  {
    if s == [] then []
    else if s[0] == CR then [CR] + OneReturn(if |s| >= 2 && s[1] == LF then s[2..] else s[1..])
    else if s[0] == LF then [CR] + OneReturn(s[1..])
    else [s[0]] + OneReturn(s[1..])
  }

  function Typed(s: seq<byte>): seq<Key>
    decreases |s|
  {
    if s == [] then [] else [Plain(s[0])] + Typed(s[1..])
  }

  predicate AtRest(d: Dec) {
    d.esc == [] && d.need == 0
  }

  lemma AsciiStep(d: Dec, b: byte)
    requires AtRest(d) && PlainAscii(b)
    ensures var r := Feed(d, b);
      && AtRest(r.d) && r.d.lastCr == (b == CR)
      && r.keys == if b == LF && d.lastCr then [] else if b == LF then [RETURN] else [Plain(b)]
  {
  }

  /** A character types itself, with the control flag if it is a control letter; delete and backspace, tab, line feed and return
      have keys of their own. */
  lemma CharacterKey(b: byte)
    requires PlainAscii(b)
    ensures Plain(b) == Key(0, if b == 127 then 8 else b, 1 <= b <= 7 || b == 11 || b == 12 || 14 <= b <= 26)
  {
  }

  /** An ASCII stream without escapes types its characters, and one Return for each CR LF, each CR and each LF. */
  lemma {:induction false} AsciiLines(d: Dec, s: seq<byte>)
    requires AtRest(d) && forall b :: b in s ==> PlainAscii(b)
    ensures FeedAll(d, s).keys == Typed(OneReturn(if d.lastCr && s != [] && s[0] == LF then s[1..] else s))
    ensures AtRest(FeedAll(d, s).d)
    decreases |s|
  {
    hide Feed;
    if s != [] {
      AsciiStep(d, s[0]);
      AsciiLines(Feed(d, s[0]).d, s[1..]);
      if s[0] == CR && |s| >= 2 && s[1] == LF {
        assert s[1..][1..] == s[2..];
      }
    }
  }

  lemma FeedFirst(d: Dec, a: byte, rest: seq<byte>)
    ensures var x, y := Feed(d, a), FeedAll(Feed(d, a).d, rest);
      FeedAll(d, [a] + rest) == Step(y.d, x.keys + y.keys)
  {
    assert ([a] + rest)[1..] == rest;
  }

  // ---- an escape sequence given up ----

  /** Two decoders that have no character in progress differ in nothing that matters. */
  predicate Alike(a: Dec, b: Dec) {
    a == b || (a.need == 0 && b == a.(acc := b.acc))
  }

  lemma {:induction false} AlikeType(a: Dec, b: Dec, s: seq<byte>)
    requires Alike(a, b)
    ensures FeedAll(a, s).keys == FeedAll(b, s).keys && Alike(FeedAll(a, s).d, FeedAll(b, s).d)
    decreases |s|
  {
    if s != [] {
      AlikeStep(a, b, s[0]);
      AlikeType(Feed(a, s[0]).d, Feed(b, s[0]).d, s[1..]);
    }
  }

  lemma AlikeStep(a: Dec, b: Dec, x: byte)
    requires Alike(a, b)
    ensures Feed(a, x).keys == Feed(b, x).keys && Alike(Feed(a, x).d, Feed(b, x).d)
  {
    hide CsiKeys;
    hide ScanKeys;
    hide LetterScan;
    hide InText;
    if a.esc == [] {
      TextAlike(a, b, x);
    } else {
      TextAlike(a.(esc := []), b.(esc := []), x);
    }
  }

  lemma TextAlike(a: Dec, b: Dec, x: byte)
    requires Alike(a, b)
    ensures InText(a, x).keys == InText(b, x).keys && Alike(InText(a, x).d, InText(b, x).d)
  {
    if a != b {
      GroundAlike(a.(need := 0), b.(need := 0), x);
    }
  }

  lemma GroundAlike(a: Dec, b: Dec, x: byte)
    requires a.need == 0 && b == a.(acc := b.acc)
    ensures InGround(a, x).keys == InGround(b, x).keys && Alike(InGround(a, x).d, InGround(b, x).d)
  {
  }

  lemma FirstHeld(d: Dec)
    requires DecOk(d) && |d.esc| >= 2
    ensures var b := d.esc[1];
      var x, y := Feed(d.(esc := []), b), Feed(FRESH, b);
      x.keys == y.keys && Alike(y.d, x.d)
  {
  }

  /** Giving up forgets everything: the ESC key, then exactly what a decoder that has seen nothing makes of the bytes held
      back, whatever they are and whatever character was in progress before the escape. */
  lemma FlushFromFresh(d: Dec)
    requires DecOk(d) && d.esc != []
    ensures Flush(d).keys == [ESCAPE] + FeedAll(FRESH, d.esc[1..]).keys
    ensures |d.esc| >= 2 ==> Alike(FeedAll(FRESH, d.esc[1..]).d, Flush(d).d)
    ensures DecOk(Flush(d).d)
  {
    hide Feed;
    DecOkEsc(d);
    StreamOk(d.(esc := []), d.esc[1..]);
    if |d.esc| >= 2 {
      var none, tail := d.(esc := []), d.esc[1..];
      FirstHeld(d);
      AlikeType(Feed(FRESH, tail[0]).d, Feed(none, tail[0]).d, tail[1..]);
    }
  }

  /** So ASCII held back is typed as its characters and one Return for each line end. */
  lemma FlushTypes(d: Dec)
    requires DecOk(d) && d.esc != [] && forall i :: 1 <= i < |d.esc| ==> PlainAscii(d.esc[i])
    ensures Flush(d).keys == [ESCAPE] + Typed(OneReturn(d.esc[1..]))
    ensures |d.esc| >= 2 ==> AtRest(Flush(d).d)
  {
    FlushFromFresh(d);
    AsciiLines(FRESH, d.esc[1..]);
  }

  // ---- control sequences in a stream ----

  /** Bytes a control sequence can have between its opening and its final byte. */
  predicate NotFinal(p: seq<byte>) {
    forall i :: 0 <= i < |p| ==> !(0x40 <= p[i] <= 0x7E)
  }

  lemma {:induction false} HeldBack(d: Dec, held: seq<byte>, p: seq<byte>)
    requires d.esc == [ESC, 91] + held && NotFinal(p) && 2 + |held| + |p| < ESC_BUF
    ensures FeedAll(d, p) == Step(d.(esc := [ESC, 91] + (held + p)), [])
    decreases |p|
  {
    if p == [] {
      assert held + p == held;
    } else {
      var d1 := d.(esc := [ESC, 91] + (held + [p[0]]));
      assert d.esc + [p[0]] == d1.esc;
      assert Feed(d, p[0]) == Step(d1, []);
      HeldBack(d1, held + [p[0]], p[1..]);
      assert (held + [p[0]]) + p[1..] == held + p;
    }
  }

  lemma Opened(d: Dec, rest: seq<byte>)
    requires d.esc == []
    ensures FeedAll(d, [ESC, 91] + rest) == FeedAll(d.(esc := [ESC, 91]), rest)
  {
    FeedAppend(d, [ESC, 91], rest);
    FeedTwo(d, ESC, 91);
    assert [ESC] + [91] == [ESC, 91];
    assert [] + FeedAll(d.(esc := [ESC, 91]), rest).keys == FeedAll(d.(esc := [ESC, 91]), rest).keys;
  }

  lemma ShortSequence(d: Dec, p: seq<byte>, final: byte)
    requires d.esc == [ESC, 91] && NotFinal(p) && 0x40 <= final <= 0x7E && |p| <= 21
    ensures FeedAll(d, p + [final]) == Step(d.(esc := []), CsiKeys(p, final))
  {
    hide FeedAll;
    var d3 := d.(esc := [ESC, 91] + p);
    HeldBack(d, [], p);
    assert [] + p == p && [ESC, 91] + [] == [ESC, 91];
    FeedAppend(d, p, [final]);
    FeedOne(d3, final);
    assert (d3.esc + [final])[2..|d3.esc|] == p;
    assert [] + CsiKeys(p, final) == CsiKeys(p, final);
  }

  lemma LongSequence(d: Dec, p: seq<byte>, rest: seq<byte>)
    requires d.esc == [ESC, 91] && NotFinal(p) && |p| == 22
    ensures FeedAll(d, p + rest) == FeedAll(d.(esc := []), rest)
  {
    hide FeedAll;
    var a := p[..21];
    var d3 := d.(esc := [ESC, 91] + a);
    HeldBack(d, [], a);
    assert [] + a == a && [ESC, 91] + [] == [ESC, 91];
    assert p + rest == a + ([p[21]] + rest);
    FeedAppend(d, a, [p[21]] + rest);
    FeedFirst(d3, p[21], rest);
    assert Feed(d3, p[21]) == Step(d.(esc := []), []);
    Associates([], [], FeedAll(d.(esc := []), rest).keys);
  }

  /** A control sequence anywhere in a stream, even in the middle of a character: with at most 21 parameter bytes it is its
      one key and leaves the decoder as it was; of a longer one the first 24 bytes vanish and the rest is typed. */
  lemma ControlSequence(d: Dec, p: seq<byte>, final: byte)
    requires d.esc == [] && NotFinal(p) && 0x40 <= final <= 0x7E
    ensures FeedAll(d, [ESC, 91] + (p + [final])) ==
      if |p| <= 21 then Step(d, CsiKeys(p, final)) else FeedAll(d, p[22..] + [final])
  {
    hide FeedAll;
    var d2 := d.(esc := [ESC, 91]);
    Opened(d, p + [final]);
    assert d2.(esc := []) == d;
    if |p| <= 21 {
      ShortSequence(d2, p, final);
    } else {
      assert p + [final] == p[..22] + (p[22..] + [final]);
      LongSequence(d2, p[..22], p[22..] + [final]);
    }
  }

  // ---- which key it is ----

  /** The final byte and its key: the arrows, Home, End, F1 to F4. */
  const LETTERS: seq<(char, uint16)> := [('A', 1), ('B', 2), ('C', 3), ('D', 4), ('H', 5), ('F', 6), ('P', 11), ('Q', 12), ('R', 13), ('S', 14)]

  /** The number before a tilde and its key: Home, Insert, Delete, End, the page keys, F1 to F12. */
  const NUMBERS: seq<(string, uint16)> :=
    [("1", 5), ("2", 7), ("3", 8), ("4", 6), ("5", 9), ("6", 10), ("7", 5), ("8", 6),
     ("11", 11), ("12", 12), ("13", 13), ("14", 14), ("15", 15),
     ("17", 16), ("18", 17), ("19", 18), ("20", 19), ("21", 20), ("23", 21), ("24", 22)]

  /** ESC [ or ESC O and a letter of the table is that one key; with any other letter it is none. */
  lemma LetterKeys(d: Dec, intro: byte, final: byte)
    requires d.esc == [] && (intro == 91 || intro == 79) && 0x40 <= final <= 0x7E
    ensures forall i :: 0 <= i < |LETTERS| && final == LETTERS[i].0 as int ==>
      FeedAll(d, [0x1B, intro, final]) == Step(d, [Key(LETTERS[i].1, 0, false)])
    ensures (forall i :: 0 <= i < |LETTERS| ==> final != LETTERS[i].0 as int) && (final != 126 || intro == 79) ==>
      FeedAll(d, [0x1B, intro, final]) == Step(d, [])
  {
    hide FeedAll;
    hide Number;
    var d2 := d.(esc := [0x1B, intro]);
    FeedThree(d, 0x1B, intro, final);
    assert Feed(d, 0x1B).d.esc + [intro] == [0x1B, intro];
    assert (d2.esc + [final])[2..2] == [];
    assert d2.(esc := []) == d;
    LetterTable(final);
  }

  lemma LetterTable(final: byte)
    ensures forall i :: 0 <= i < |LETTERS| && final == LETTERS[i].0 as int ==> ScanKeys(LetterScan(final)) == [Key(LETTERS[i].1, 0, false)]
    ensures (forall i :: 0 <= i < |LETTERS| ==> final != LETTERS[i].0 as int) ==> ScanKeys(LetterScan(final)) == []
  {
    assert LETTERS[0].0 as int == 65 && LETTERS[1].0 as int == 66 && LETTERS[2].0 as int == 67 && LETTERS[3].0 as int == 68;
    assert LETTERS[4].0 as int == 72 && LETTERS[5].0 as int == 70 && LETTERS[6].0 as int == 80 && LETTERS[7].0 as int == 81;
    assert LETTERS[8].0 as int == 82 && LETTERS[9].0 as int == 83;
  }

  lemma OneDigit(a: byte)
    requires IsDigit(a)
    ensures Number([a], 0) == a - 48
  {
    assert Number([a][1..], a - 48) == a - 48;
  }

  lemma TwoDigits(a: byte, b: byte)
    requires IsDigit(a) && IsDigit(b)
    ensures Number([a, b], 0) == 10 * (a - 48) + (b - 48)
  {
    assert [a, b][1..] == [b] && [b][1..] == [];
    assert Number([b], a - 48) == Number([], 10 * (a - 48) + (b - 48));
  }

  lemma OneDigitKeys(i: nat)
    requires i < 8
    ensures var p := Ascii(NUMBERS[i].0);
      p == [49 + i] && ScanKeys(TildeScan(Number(p, 0))) == [Key(NUMBERS[i].1, 0, false)]
  {
    hide Number;
    assert Ascii(NUMBERS[i].0) == [49 + i];
    OneDigit(49 + i);
  }

  lemma TwoDigitKeys(i: nat)
    requires 8 <= i < |NUMBERS|
    ensures var p := Ascii(NUMBERS[i].0);
      |p| == 2 && IsDigit(p[0]) && IsDigit(p[1]) && ScanKeys(TildeScan(Number(p, 0))) == [Key(NUMBERS[i].1, 0, false)]
  {
    hide Number;
    var (a, b) := (NUMBERS[i].0[0] as int, NUMBERS[i].0[1] as int);
    assert Ascii(NUMBERS[i].0) == [a, b];
    TwoDigits(a, b);
  }

  /** ESC [, a number of the table and a tilde is that one key. */
  lemma NumberKeys(d: Dec, i: nat)
    requires d.esc == [] && i < |NUMBERS|
    ensures FeedAll(d, [0x1B, 91] + (Ascii(NUMBERS[i].0) + [126])) == Step(d, [Key(NUMBERS[i].1, 0, false)])
  {
    hide FeedAll;
    hide Number;
    hide TildeScan;
    hide ScanKeys;
    if i < 8 {
      OneDigitKeys(i);
    } else {
      TwoDigitKeys(i);
    }
    ControlSequence(d, Ascii(NUMBERS[i].0), 126);
  }

  // ---- UTF-8 both ways ----

  function EncodeAll(s: seq<uint16>): seq<byte>
    decreases |s|
  {
    if s == [] then [] else O.Encode(s[0]) + EncodeAll(s[1..])
  }

  function Units(s: seq<uint16>): seq<Key>
    decreases |s|
  {
    if s == [] then [] else [Key(SCAN_NULL, s[0], false)] + Units(s[1..])
  }

  lemma FeedOne(d: Dec, a: byte)
    ensures FeedAll(d, [a]) == Feed(d, a)
  {
    assert [a][1..] == [];
    assert Feed(d, a).keys + [] == Feed(d, a).keys;
  }

  lemma FeedTwo(d: Dec, a: byte, b: byte)
    ensures var x, y := Feed(d, a), Feed(Feed(d, a).d, b);
      FeedAll(d, [a, b]) == Step(y.d, x.keys + y.keys)
  {
    assert [a, b][1..] == [b];
    FeedOne(Feed(d, a).d, b);
  }

  lemma FeedThree(d: Dec, a: byte, b: byte, c: byte)
    requires Feed(d, a).keys == [] && Feed(Feed(d, a).d, b).keys == []
    ensures FeedAll(d, [a, b, c]) == Feed(Feed(Feed(d, a).d, b).d, c)
  {
    assert [a, b, c][1..] == [b, c];
    FeedTwo(Feed(d, a).d, b, c);
  }

  /** What the console encodes for one unit, the decoder takes back as that unit. */
  lemma UnitRoundTrip(d: Dec, c: uint16)
    requires AtRest(d) && c >= 0x20 && c != 0x7F
    ensures var r := FeedAll(d, O.Encode(c));
      AtRest(r.d) && r.keys == [Key(SCAN_NULL, c, false)]
  {
    hide FeedAll;
    if c < 0x80 {
      FeedOne(d, c);
    } else if c < 0x800 {
      TwoArrive(d, c / 64, c % 64);
    } else {
      ThreeParts(c);
      ThreeArrive(d, c / 4096, c / 64 % 64, c % 64);
    }
  }

  /** A four-byte character types its unit if it has one, and nothing if it lies beyond the units. */
  lemma FourArrive(d: Dec, a: byte, b: byte, c: byte, e: byte)
    requires AtRest(d) && 0xF0 <= a && 0x80 <= b < 0xC0 && 0x80 <= c < 0xC0 && 0x80 <= e < 0xC0
    ensures var (r, code: int) := (FeedAll(d, [a, b, c, e]), ((a % 8 * 64 + b % 64) * 64 + c % 64) * 64 + e % 64);
      AtRest(r.d) && r.keys == if code <= 0xFFFF then [KeyFor(SCAN_NULL, code)] else []
  {
    hide FeedAll;
    hide Feed;
    var d1 := Opening(d, a);
    var d2 := Grown(d1, b);
    var d3 := Grown(d2, c);
    var s := Completed(d3, e);
    assert [a, b, c, e] == [a] + [b, c, e];
    FeedFirst(d, a, [b, c, e]);
    FeedThree(d1, b, c, e);
    assert [] + s.keys == s.keys;
  }

  lemma Opening(d: Dec, a: byte) returns (d1: Dec)
    requires AtRest(d) && 0xF0 <= a
    ensures Feed(d, a) == Step(d1, []) && d1 == d.(acc := a % 8, need := 3)
  {
    d1 := d.(acc := a % 8, need := 3);
  }

  lemma Grown(d: Dec, b: byte) returns (d1: Dec)
    requires d.esc == [] && d.need > 1 && d.acc < 0x10000 && 0x80 <= b < 0xC0
    ensures Feed(d, b) == Step(d1, []) && d1 == d.(acc := d.acc * 64 + b % 64, need := d.need - 1)
  {
    d1 := d.(acc := d.acc * 64 + b % 64, need := d.need - 1);
    NotTruncated(d.acc);
  }

  lemma Completed(d: Dec, b: byte) returns (s: Step)
    requires d.esc == [] && d.need == 1 && d.acc < 0x10000 && 0x80 <= b < 0xC0
    ensures Feed(d, b) == s && s.d == d.(acc := d.acc * 64 + b % 64, need := 0)
    ensures s.keys == if d.acc * 64 + b % 64 <= 0xFFFF then [KeyFor(SCAN_NULL, d.acc * 64 + b % 64)] else []
  {
    NotTruncated(d.acc);
    s := Feed(d, b);
  }

  lemma NotTruncated(acc: nat)
    requires acc < 0x10000
    ensures acc * 64 % TWO32 == acc * 64
  {
  }

  /** A character cut short is dropped, and what cuts it short counts from the start. */
  lemma CutShort(d: Dec, b: byte)
    requires d.esc == [] && d.need > 0 && !(0x80 <= b < 0xC0) && b != ESC
    ensures Feed(d, b) == Feed(d.(need := 0), b)
  {
  }

  lemma TwoArrive(d: Dec, a: nat, b: nat)
    requires AtRest(d) && a < 0x20 && b < 0x40
    ensures FeedAll(d, [0xC0 + a, 0x80 + b]) == Step(d.(acc := a * 64 + b), [KeyFor(SCAN_NULL, a * 64 + b)])
  {
    hide FeedAll;
    hide Feed;
    FeedTwo(d, 0xC0 + a, 0x80 + b);
    TwoTaken(d, a, b);
    assert [] + [KeyFor(SCAN_NULL, a * 64 + b)] == [KeyFor(SCAN_NULL, a * 64 + b)];
  }

  lemma ThreeArrive(d: Dec, a: nat, b: nat, c: nat)
    requires AtRest(d) && a < 0x10 && b < 0x40 && c < 0x40
    ensures var code := (a * 64 + b) * 64 + c;
      FeedAll(d, [0xE0 + a, 0x80 + b, 0x80 + c]) == Step(d.(acc := code), [KeyFor(SCAN_NULL, code)])
  {
    hide FeedAll;
    hide Feed;
    ThreeTaken(d, a, b, c);
    FeedThree(d, 0xE0 + a, 0x80 + b, 0x80 + c);
  }

  lemma ThreeParts(c: uint16)
    ensures c / 4096 < 16 && c / 64 % 64 < 64 && c == c / 4096 * 4096 + c / 64 % 64 * 64 + c % 64
  {
    assert c / 64 / 64 == c / 4096;
  }

  lemma TwoTaken(d: Dec, a: nat, b: nat)
    requires AtRest(d) && a < 0x20 && b < 0x40
    ensures var x := Feed(d, 0xC0 + a);
      && x.keys == [] && Feed(x.d, 0x80 + b) == Step(d.(acc := a * 64 + b), [KeyFor(SCAN_NULL, a * 64 + b)])
  {
    assert (0xC0 + a) % 0x20 == a;
    Continued(d.(acc := a, need := 1), b);
  }

  lemma ThreeTaken(d: Dec, a: nat, b: nat, c: nat)
    requires AtRest(d) && a < 0x10 && b < 0x40 && c < 0x40
    ensures var x := Feed(d, 0xE0 + a);
      var y := Feed(x.d, 0x80 + b);
      var code := (a * 64 + b) * 64 + c;
      && x.keys == [] && y.keys == []
      && Feed(y.d, 0x80 + c) == Step(d.(acc := code), [KeyFor(SCAN_NULL, code)])
  {
    var d1, d2 := d.(acc := a, need := 2), d.(acc := a * 64 + b, need := 1);
    assert Feed(d, 0xE0 + a) == Step(d1, []);
    Continued(d1, b);
    Continued(d2, c);
  }

  /** One byte more of a character that is not yet complete. */
  lemma Continued(d: Dec, b: nat)
    requires d.esc == [] && d.need > 0 && d.acc < 0x1_0000 && b < 0x40
    ensures var acc := d.acc * 64 + b;
      Feed(d, 0x80 + b) == Step(d.(acc := acc, need := d.need - 1), if d.need == 1 && acc <= 0xFFFF then [KeyFor(SCAN_NULL, acc)] else [])
  {
    LowSix(b);
    Below(d.acc * 64);
  }

  lemma LowSix(b: nat)
    requires b < 0x40
    ensures (0x80 + b) % 64 == b
  {
  }

  lemma Below(n: nat)
    requires n < TWO32
    ensures n % TWO32 == n
  {
  }

  /** Every string of printable units that goes out through EmitUtf8 comes back in through FeedByte as itself. */
  lemma {:induction false} StringRoundTrip(d: Dec, s: seq<uint16>)
    requires AtRest(d) && forall c :: c in s ==> c >= 0x20 && c != 0x7F
    ensures var r := FeedAll(d, EncodeAll(s));
      AtRest(r.d) && r.keys == Units(s)
    decreases |s|
  {
    hide Feed;
    if s != [] {
      hide FeedAll;
      hide O.Encode;
      assert s[0] in s && forall c :: c in s[1..] ==> c in s;
      UnitRoundTrip(d, s[0]);
      StringRoundTrip(FeedAll(d, O.Encode(s[0])).d, s[1..]);
      FeedAppend(d, O.Encode(s[0]), EncodeAll(s[1..]));
    }
  }

  // ---- the ring of keys ----

  /** A full ring drops what comes. */
  function Store(held: seq<Key>, k: Key): seq<Key> {
    if |held| < KEY_RING - 1 then held + [k] else held
  }

  function StoreAll(held: seq<Key>, keys: seq<Key>): seq<Key>
    decreases |keys|
  {
    if keys == [] then held else StoreAll(Store(held, keys[0]), keys[1..])
  }

  lemma {:induction false} StoreAllAppend(held: seq<Key>, a: seq<Key>, b: seq<Key>)
    ensures StoreAll(held, a + b) == StoreAll(StoreAll(held, a), b)
    decreases |a|
  {
    if a == [] {
      assert a + b == b;
    } else {
      assert (a + b)[1..] == a[1..] + b;
      StoreAllAppend(Store(held, a[0]), a[1..], b);
    }
  }

  function FirstKeys(keys: seq<Key>, room: nat): seq<Key> {
    if |keys| <= room then keys else keys[..room]
  }

  lemma OneKept(held: seq<Key>, keys: seq<Key>, room: nat)
    requires keys != []
    ensures room > 0 ==> (held + [keys[0]]) + FirstKeys(keys[1..], room - 1) == held + FirstKeys(keys, room)
    ensures room == 0 ==> FirstKeys(keys, room) == FirstKeys(keys[1..], room) == []
  {
    if room > 0 {
      assert [keys[0]] + FirstKeys(keys[1..], room - 1) == FirstKeys(keys, room);
    }
  }

  /** With room for them all, all are kept; and whatever the room, it is the first ones that are. */
  lemma {:induction false} StoreAllKeeps(held: seq<Key>, keys: seq<Key>)
    requires |held| <= KEY_RING - 1
    ensures StoreAll(held, keys) == held + FirstKeys(keys, KEY_RING - 1 - |held|)
    decreases |keys|
  {
    hide FirstKeys;
    if keys != [] {
      StoreAllKeeps(Store(held, keys[0]), keys[1..]);
      OneKept(held, keys, KEY_RING - 1 - |held|);
    } else {
      NoKeys(KEY_RING - 1 - |held|);
      assert held + [] == held;
    }
  }

  lemma NoKeys(room: nat)
    ensures FirstKeys([], room) == []
  {
  }

  lemma {:induction false} UnitsLength(s: seq<uint16>)
    ensures |Units(s)| == |s|
    decreases |s|
  {
    if s != [] {
      UnitsLength(s[1..]);
    }
  }

  /** A string typed at the other end, with room in the ring: exactly its units, in order, behind the keys already
      waiting. */
  lemma StringArrives(d: Dec, held: seq<Key>, s: seq<uint16>)
    requires AtRest(d) && forall c :: c in s ==> c >= 0x20 && c != 0x7F
    requires |held| + |s| <= KEY_RING - 1
    ensures StoreAll(held, FeedAll(d, EncodeAll(s)).keys) == held + Units(s)
  {
    StringRoundTrip(d, s);
    UnitsLength(s);
    StoreAllKeeps(held, Units(s));
  }
}
