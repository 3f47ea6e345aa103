/** The remote end of the console: an autowrap terminal in the manner of xterm, reading UTF-8 and the escape sequences of
    ECMA-48 section 5.4. It is the judge of what the console shim predicts, and knows nothing of it. */
module Terminal {
  import opened Bytes

  /** How many columns each character takes. */
  type Width = int -> nat

  datatype Parse =
    | Ground
    | Escape
    | Csi(params: seq<nat>, marked: bool)     // parameters so far, the last one still growing; a private marker was seen
    | Utf8(need: nat, acc: nat)               // bytes of a character still to come

  datatype Glyph = Glyph(code: int, col: nat, row: nat)

  /** `shown` is everything ever shown, of which the first `erased` glyphs have been wiped from the screen again. */
  datatype Term = Term(cols: nat, rows: nat, col: nat, row: nat, wrap: bool, parse: Parse,
                       shown: seq<Glyph>, erased: nat, rendition: seq<nat>, visible: bool)

  const ESC: byte := 0x1B
  const FIRST_PARAM: seq<nat> := [0]

  function Down(t: Term): Term {
    if t.row + 1 < t.rows then t.(row := t.row + 1) else t
  }

  /** A character of width w, on the next line if the last one filled this one or w no longer fits. */
  function Show(width: Width, t: Term, code: int): Term {
    var w := width(code);
    if w == 0 then t
    else
      var t1 := if t.wrap || t.col + w > t.cols then Down(t.(col := 0, wrap := false)) else t;
      var t2 := t1.(shown := t1.shown + [Glyph(code, t1.col, t1.row)]);
      if t2.col + w >= t2.cols then t2.(col := if t2.cols > 0 then t2.cols - 1 else 0, wrap := true)
      else t2.(col := t2.col + w)
  }

  function TabStop(t: Term): nat {
    var next := t.col / 8 * 8 + 8;
    if next < t.cols then next else if t.cols > 0 then t.cols - 1 else 0
  }

  /** A cursor address counts from 1, 0 stands for 1, and everything beyond the edge is the edge. */
  function Address(p: nat, size: nat): nat {
    var at := if p == 0 then 0 else p - 1;
    if at < size then at else if size > 0 then size - 1 else 0
  }

  function Param(params: seq<nat>, i: nat): nat {
    if i < |params| then params[i] else 0
  }

  function Execute(t: Term, params: seq<nat>, marked: bool, final: byte): Term {
    if marked then
      if params == [25] && (final == 104 || final == 108) then t.(visible := final == 104) else t
    else if final == 74 && Param(params, 0) == 2 then t.(erased := |t.shown|)
    else if final == 72 then
      t.(row := Address(Param(params, 0), t.rows), col := Address(Param(params, 1), t.cols), wrap := false)
    else if final == 109 then t.(rendition := params)
    else t
  }

  /** The controls that move the cursor: vertical tab and form feed are line feeds. */
  function Control(t: Term, b: byte): Term {
    if b == 13 then t.(col := 0, wrap := false)
    else if 10 <= b <= 12 then Down(t.(wrap := false))
    else if b == 8 then t.(col := if t.col > 0 then t.col - 1 else 0, wrap := false)
    else if b == 9 then t.(col := TabStop(t), wrap := false)
    else t
  }

  function InGround(width: Width, t: Term, b: byte): Term {
    if b == ESC then t.(parse := Escape)
    else if b < 0x20 then Control(t, b)
    else if b < 0x7F then Show(width, t, b)
    else if b < 0xC0 then t
    else if b < 0xE0 then t.(parse := Utf8(1, b % 0x20))
    else if b < 0xF0 then t.(parse := Utf8(2, b % 0x10))
    else t.(parse := Utf8(3, b % 8))
  }

  function InCsi(t: Term, params: seq<nat>, marked: bool, b: byte): Term
    requires params != []
  {
    var last := |params| - 1;
    if 48 <= b <= 57 then t.(parse := Csi(params[last := params[last] * 10 + (b - 48)], marked))
    else if b == 59 then t.(parse := Csi(params + [0], marked))
    else if b == 63 then t.(parse := Csi(params, true))
    else if 0x40 <= b <= 0x7E then Execute(t, params, marked, b).(parse := Ground)
    else t
  }

  function Byte(width: Width, t: Term, b: byte): Term {
    match t.parse
    case Ground => InGround(width, t, b)
    case Escape => t.(parse := if b == 91 then Csi(FIRST_PARAM, false) else Ground)
    case Csi(params, marked) => if params == [] then t.(parse := Ground) else InCsi(t, params, marked, b)
    case Utf8(need, acc) =>
      if 0x80 <= b < 0xC0 then
        var code := acc * 64 + b % 64;
        if need <= 1 then Show(width, t.(parse := Ground), code) else t.(parse := Utf8(need - 1, code))
      else InGround(width, t.(parse := Ground), b)
  }

  /** The terminal after a stream of bytes. */
  function Hear(width: Width, t: Term, s: seq<byte>): Term
    decreases |s|
  {
    if s == [] then t else Hear(width, Byte(width, t, s[0]), s[1..])
  }

  lemma {:induction false} HearAppend(width: Width, t: Term, a: seq<byte>, b: seq<byte>)
    ensures Hear(width, t, a + b) == Hear(width, Hear(width, t, a), b)
    decreases |a|
  {
    if a == [] {
      assert a + b == b;
    } else {
      assert (a + b)[1..] == a[1..] + b;
      HearAppend(width, Byte(width, t, a[0]), a[1..], b);
    }
  }

  lemma HearOne(width: Width, t: Term, b: byte)
    ensures Hear(width, t, [b]) == Byte(width, t, b)
  {
    assert [b][1..] == [];
  }

  lemma HearTwo(width: Width, t: Term, a: byte, b: byte)
    ensures Hear(width, t, [a, b]) == Byte(width, Byte(width, t, a), b)
  {
    assert [a, b][1..] == [b];
    HearOne(width, Byte(width, t, a), b);
  }

  lemma HearThree(width: Width, t: Term, a: byte, b: byte, c: byte)
    ensures Hear(width, t, [a, b, c]) == Byte(width, Byte(width, Byte(width, t, a), b), c)
  {
    assert [a, b, c][1..] == [b, c];
    HearTwo(width, Byte(width, t, a), b, c);
  }
}
