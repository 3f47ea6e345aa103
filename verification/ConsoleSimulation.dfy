/** The cursor simulation: what the shim predicts is where a terminal of the same size that reads the emitted bytes is. */
module ConsoleSimulation {
  import opened Bytes
  import opened Terminal
  import O = ConsoleOutput

  /** The prediction holds. */
  predicate Same(o: O.Screen, t: Term) {
    && t.parse.Ground? && t.cols == o.cols && t.rows == o.rows
    && t.col == o.col && t.row == o.row && t.wrap == o.wrap
  }

  // ---- numbers and characters arrive as they were sent ----

  /** A decimal parameter is read back as the number it spells. */
  lemma {:induction false} DigitsRead(width: Width, t: Term, params: seq<nat>, marked: bool, v: nat)
    requires t.parse == Csi(params + [0], marked)
    ensures Hear(width, t, O.Digits(v)) == t.(parse := Csi(params + [v], marked))
    decreases v
  {
    var all := params + [0];
    if v < 10 {
      HearOne(width, t, 48 + v);
      assert all[|all| - 1 := v] == params + [v];
    } else {
      var mid := t.(parse := Csi(params + [v / 10], marked));
      DigitsRead(width, t, params, marked, v / 10);
      HearAppend(width, t, O.Digits(v / 10), [48 + v % 10]);
      HearOne(width, mid, 48 + v % 10);
      assert (params + [v / 10])[|params| := v / 10 * 10 + v % 10] == params + [v];
    }
  }

  lemma TwoRead(width: Width, t: Term, a: nat, b: nat)
    requires t.parse.Ground? && a < 0x20 && b < 0x40
    ensures Hear(width, t, [0xC0 + a, 0x80 + b]) == Show(width, t, a * 64 + b)
  {
    hide Show;
    HearTwo(width, t, 0xC0 + a, 0x80 + b);
    assert (0xC0 + a) % 0x20 == a && (0x80 + b) % 64 == b;
    var t1 := t.(parse := Utf8(1, a));
    assert Byte(width, t, 0xC0 + a) == t1;
    assert t1.(parse := Ground) == t;
  }

  lemma ThreeRead(width: Width, t: Term, a: nat, b: nat, c: nat)
    requires t.parse.Ground? && a < 0x10 && b < 0x40 && c < 0x40
    ensures Hear(width, t, [0xE0 + a, 0x80 + b, 0x80 + c]) == Show(width, t, (a * 64 + b) * 64 + c)
  {
    hide Show;
    HearThree(width, t, 0xE0 + a, 0x80 + b, 0x80 + c);
    assert (0xE0 + a) % 0x10 == a && (0x80 + b) % 64 == b && (0x80 + c) % 64 == c;
    var t1, t2 := t.(parse := Utf8(2, a)), t.(parse := Utf8(1, a * 64 + b));
    assert Byte(width, t, 0xE0 + a) == t1 && Byte(width, t1, 0x80 + b) == t2;
    assert t2.(parse := Ground) == t;
  }

  /** The encoding of a unit is shown as that one character. */
  lemma EncodeShown(width: Width, t: Term, c: uint16)
    requires t.parse.Ground? && c >= 0x20 && c != 0x7F
    ensures Hear(width, t, O.Encode(c)) == Show(width, t, c)
  {
    hide Hear;
    hide Show;
    if c < 0x80 {
      HearOne(width, t, c);
    } else if c < 0x800 {
      TwoRead(width, t, c / 64, c % 64);
    } else {
      ThreeBytes(c);
      ThreeRead(width, t, c / 4096, c / 64 % 64, c % 64);
    }
  }

  lemma ThreeBytes(c: uint16)
    ensures c / 4096 < 0x10
    ensures (c / 4096 * 64 + c / 64 % 64) * 64 + c % 64 == c
  {
    assert c / 64 / 64 == c / 4096;
  }

  // ---- one unit ----

  predicate Steers(c: uint16) {
    c == 8 || c == 9 || c == 10 || c == 13
  }

  /** Neither a control of ASCII nor one of the controls above it. */
  predicate Printable(c: uint16) {
    0x20 <= c < 0x7F || c >= 0xA0
  }

  /** Units the prediction is for: the four controls it knows, and characters one column wide. */
  predicate Predictable(width: Width, c: uint16) {
    Steers(c) || (Printable(c) && width(c) == 1)
  }

  /** Exactly when one unit leaves the prediction right: ESC and DEL never do, a vertical tab or form feed only on the last
      row with no wrap pending, a character if and only if it takes one column. */
  predicate Right(width: Width, o: O.Screen, c: uint16) {
    if c < 0x20 then c != 0x1B && (c == 11 || c == 12 ==> o.row + 1 == o.rows && !o.wrap)
    else c != 0x7F && width(c) == 1
  }

  lemma ControlStep(width: Width, o: O.Screen, t: Term, c: uint16)
    requires O.Fits(o) && Same(o, t) && c < 0x20 && c != 0x1B
    ensures var t' := Hear(width, t, O.UnitBytes(o, c));
      && (Same(O.AfterUnit(o, c), t') <==> Right(width, o, c))
      && t'.shown == t.shown && t'.rendition == t.rendition
  {
    if c == 10 {
      HearTwo(width, t, 13, 10);
    } else {
      HearOne(width, t, c);
    }
  }

  lemma PrintableStep(width: Width, o: O.Screen, t: Term, c: uint16)
    requires O.Fits(o) && Same(o, t) && c >= 0x20 && c != 0x7F && width(c) <= 2
    ensures Same(O.AfterUnit(o, c), Hear(width, t, O.UnitBytes(o, c))) <==> width(c) == 1
  {
    hide Hear;
    EncodeShown(width, t, c);
  }

  /** The exact condition for one unit, from any state in which the prediction is right. */
  lemma UnitExact(width: Width, o: O.Screen, t: Term, c: uint16)
    requires O.Fits(o) && Same(o, t) && (c < 0x80 || c >= 0xA0) && (c >= 0x20 ==> width(c) <= 2)
    ensures Same(O.AfterUnit(o, c), Hear(width, t, O.UnitBytes(o, c))) <==> Right(width, o, c)
  {
    hide Hear;
    if c == 0x1B || c == 0x7F {
      HearOne(width, t, c);
    } else if c < 0x20 {
      ControlStep(width, o, t, c);
    } else {
      PrintableStep(width, o, t, c);
    }
  }

  /** What a printable unit of one column puts on the screen, and where. */
  lemma PrintableShown(width: Width, o: O.Screen, t: Term, c: uint16)
    requires O.Fits(o) && Same(o, t) && c >= 0x20 && c != 0x7F && width(c) == 1
    ensures var t' := Hear(width, t, O.UnitBytes(o, c));
      t'.rendition == t.rendition && Codes(t'.shown) == Codes(t.shown) + [c as int]
  {
    hide Hear;
    EncodeShown(width, t, c);
    var t' := Hear(width, t, O.UnitBytes(o, c));
    var g := t'.shown[|t.shown|];
    CodesSnoc(t.shown, g);
  }

  /** The characters shown, in order. */
  function Codes(g: seq<Glyph>): seq<int> {
    if g == [] then [] else Codes(g[..|g| - 1]) + [g[|g| - 1].code]
  }

  lemma CodesSnoc(g: seq<Glyph>, x: Glyph)
    ensures Codes(g + [x]) == Codes(g) + [x.code]
  {
    assert (g + [x])[..|g|] == g;
  }

  // ---- whole strings ----

  /** The characters of a string, without its controls. */
  function Printed(s: seq<uint16>): seq<int>
    decreases |s|
  {
    if s == [] then [] else (if s[0] < 0x20 then [] else [s[0] as int]) + Printed(s[1..])
  }

  lemma UnitStep(width: Width, o: O.Screen, t: Term, c: uint16)
    requires O.Fits(o) && Same(o, t) && Predictable(width, c)
    ensures var t' := Hear(width, t, O.UnitBytes(o, c));
      && Same(O.AfterUnit(o, c), t') && t'.rendition == t.rendition
      && Codes(t'.shown) == Codes(t.shown) + (if c < 0x20 then [] else [c as int])
  {
    hide Hear;
    hide O.AfterUnit;
    hide O.UnitBytes;
    hide Same;
    if c < 0x20 {
      ControlStep(width, o, t, c);
    } else {
      PrintableStep(width, o, t, c);
      PrintableShown(width, o, t, c);
    }
  }

  lemma {:induction false} StringStep(width: Width, o: O.Screen, t: Term, s: seq<uint16>)
    requires O.Fits(o) && Same(o, t) && forall c :: c in s ==> Predictable(width, c)
    ensures var t' := Hear(width, t, O.StringBytes(o, s));
      && Same(O.AfterString(o, s), t') && t'.rendition == t.rendition
      && Codes(t'.shown) == Codes(t.shown) + Printed(s)
    decreases |s|
  {
    hide Same;
    hide Predictable;
    hide O.Fits;
    hide O.AfterUnit;
    hide O.UnitBytes;
    hide Hear;
    hide Codes;
    if s == [] {
      HearNothing(width, t);
      assert Codes(t.shown) + [] == Codes(t.shown);
    } else {
      var o1, b := O.AfterUnit(o, s[0]), O.UnitBytes(o, s[0]);
      var t1 := Hear(width, t, b);
      UnitStep(width, o, t, s[0]);
      O.UnitFits(o, s[0]);
      StringStep(width, o1, t1, s[1..]);
      HearAppend(width, t, b, O.StringBytes(o1, s[1..]));
      Associates(Codes(t.shown), if s[0] < 0x20 then [] else [s[0] as int], Printed(s[1..]));
    }
  }

  // ---- escape sequences ----

  lemma OpenCsi(width: Width, t: Term, rest: seq<byte>)
    requires t.parse.Ground?
    ensures Hear(width, t, O.CSI + rest) == Hear(width, t.(parse := Csi(FIRST_PARAM, false)), rest)
  {
    HearAppend(width, t, O.CSI, rest);
    HearTwo(width, t, 0x1B, 91);
  }

  lemma NextParam(width: Width, t: Term, params: seq<nat>, v: nat, b: byte, rest: seq<byte>)
    requires t.parse == Csi(params + [0], false)
    ensures Hear(width, t, O.Digits(v) + [b] + rest)
      == Hear(width, Byte(width, t.(parse := Csi(params + [v], false)), b), rest)
  {
    var t1 := t.(parse := Csi(params + [v], false));
    assert O.Digits(v) + [b] + rest == O.Digits(v) + ([b] + rest);
    HearAppend(width, t, O.Digits(v), [b] + rest);
    DigitsRead(width, t, params, false, v);
    HearAppend(width, t1, [b], rest);
    HearOne(width, t1, b);
  }

  /** An explicit cursor address puts the terminal there, wherever it was. */
  lemma CursorMoves(width: Width, o: O.Screen, t: Term, col: nat, row: nat)
    requires t.parse.Ground? && t.cols == o.cols && t.rows == o.rows && col < o.cols && row < o.rows
    ensures Hear(width, t, O.CursorBytes(col, row)) == t.(col := col, row := row, wrap := false)
  {
    hide Hear;
    hide O.Digits;
    var second := O.Digits(col + 1) + [72] + [];
    assert O.CursorBytes(col, row) == O.CSI + (O.Digits(row + 1) + [59] + second);
    OpenCsi(width, t, O.Digits(row + 1) + [59] + second);
    var t1 := t.(parse := Csi([] + [0], false));
    assert FIRST_PARAM == [] + [0];
    NextParam(width, t1, [], row + 1, 59, second);
    var t2 := t.(parse := Csi([row + 1] + [0], false));
    assert [] + [row + 1] == [row + 1];
    NextParam(width, t2, [row + 1], col + 1, 72, []);
    HearNothing(width, t.(col := col, row := row, wrap := false));
  }

  lemma HearNothing(width: Width, t: Term)
    ensures Hear(width, t, []) == t
  {
  }

  lemma HearFirst(width: Width, t: Term, b: byte, rest: seq<byte>)
    ensures Hear(width, t, [b] + rest) == Hear(width, Byte(width, t, b), rest)
  {
    HearAppend(width, t, [b], rest);
    HearOne(width, t, b);
  }

  /** Clearing wipes everything shown and homes the terminal, wherever it was. */
  lemma ClearHomes(width: Width, t: Term)
    requires t.parse.Ground? && t.cols > 0 && t.rows > 0
    ensures Hear(width, t, O.CLEAR_BYTES) == t.(erased := |t.shown|, col := 0, row := 0, wrap := false)
  {
    hide Hear;
    var home: seq<byte> := [72];
    assert O.CLEAR_BYTES == O.CSI + ([50] + ([74] + (O.CSI + home)));
    OpenCsi(width, t, [50] + ([74] + (O.CSI + home)));
    var t1 := t.(parse := Csi(FIRST_PARAM, false));
    HearFirst(width, t1, 50, [74] + (O.CSI + home));
    var t2 := t.(parse := Csi([2], false));
    assert FIRST_PARAM[0 := 2] == [2];
    assert Byte(width, t1, 50) == t2;
    HearFirst(width, t2, 74, O.CSI + home);
    var t3 := t.(erased := |t.shown|);
    assert Byte(width, t2, 74) == t3;
    OpenCsi(width, t3, home);
    HearOne(width, t3.(parse := Csi(FIRST_PARAM, false)), 72);
  }

  /** EFI counts blue, green, red from the lowest bit of a colour, ANSI red, green, blue. */
  function AnsiColour(efi: nat): nat {
    4 * (efi % 2) + 2 * (efi / 2 % 2) + efi / 4 % 2
  }

  lemma ColoursAre(attr: nat)
    ensures O.Foreground(attr) == (if attr / 8 % 2 == 1 then 90 else 30) + AnsiColour(attr)
    ensures O.Background(attr) == 40 + AnsiColour(attr / 16)
  {
    Swapped(attr);
    Swapped(attr / 16);
  }

  lemma Swapped(c: nat)
    ensures O.EFI_TO_ANSI[c % 8] == AnsiColour(c)
  {
    LowBits(c, c / 8, c % 8);
    EightColours(c % 8);
  }

  lemma LowBits(c: nat, q: nat, m: nat)
    requires c == 8 * q + m && m < 8
    ensures c % 2 == m % 2 && c / 2 % 2 == m / 2 % 2 && c / 4 % 2 == m / 4 % 2
  {
    assert c == 2 * (4 * q) + m && c / 2 == 4 * q + m / 2;
    assert c / 4 == 2 * q + m / 4;
  }

  lemma EightColours(m: nat)
    requires m < 8
    ensures O.EFI_TO_ANSI[m] == AnsiColour(m)
  {
    assert m == 0 || m == 1 || m == 2 || m == 3 || m == 4 || m == 5 || m == 6 || m == 7;
  }

  /** The attribute arrives as a reset followed by the two colours, red and blue exchanged, the foreground bright if bit 3 says
      so. */
  lemma AttributeArrives(width: Width, t: Term, attr: nat)
    requires t.parse.Ground? && attr <= 0x7F
    ensures Hear(width, t, O.AttributeBytes(attr)) == t.(rendition := [0, O.Foreground(attr), O.Background(attr)])
    ensures O.Foreground(attr) == (if attr / 8 % 2 == 1 then 90 else 30) + AnsiColour(attr)
    ensures O.Background(attr) == 40 + AnsiColour(attr / 16)
  {
    ColoursAre(attr);
    hide AnsiColour;
    hide Hear;
    hide O.Digits;
    hide O.Foreground;
    hide O.Background;
    var fg, bg := O.Foreground(attr), O.Background(attr);
    var third := O.Digits(bg) + [109] + [];
    var second := O.Digits(fg) + [59] + third;
    assert O.AttributeBytes(attr) == O.CSI + ([48] + ([59] + second));
    OpenCsi(width, t, [48] + ([59] + second));
    var t1 := t.(parse := Csi([0], false));
    HearFirst(width, t1, 48, [59] + second);
    assert [0][0 := 0] == [0];
    HearFirst(width, t1, 59, second);
    var t2 := t.(parse := Csi([0] + [0], false));
    NextParam(width, t2, [0], fg, 59, third);
    var t3 := t.(parse := Csi(([0] + [fg]) + [0], false));
    NextParam(width, t3, [0] + [fg], bg, 109, []);
    HearNothing(width, t.(rendition := [0] + [fg] + [bg]));
  }

  /** The cursor is shown or hidden. */
  lemma VisibleArrives(width: Width, t: Term, visible: bool, rest: seq<byte>)
    requires t.parse.Ground?
    ensures Hear(width, t, O.VisibleBytes(visible) + rest) == Hear(width, t.(visible := visible), rest)
  {
    hide Hear;
    var last: byte := if visible then 104 else 108;
    assert O.VisibleBytes(visible) + rest == O.CSI + ([63] + ([50] + ([53] + ([last] + rest))));
    OpenCsi(width, t, [63] + ([50] + ([53] + ([last] + rest))));
    var t1 := t.(parse := Csi(FIRST_PARAM, false));
    HearFirst(width, t1, 63, [50] + ([53] + ([last] + rest)));
    var t2 := t.(parse := Csi(FIRST_PARAM, true));
    HearFirst(width, t2, 50, [53] + ([last] + rest));
    var t3 := t.(parse := Csi([2], true));
    assert FIRST_PARAM[0 := 2] == [2];
    assert Byte(width, t2, 50) == t3;
    HearFirst(width, t3, 53, [last] + rest);
    var t4 := t.(parse := Csi([25], true));
    assert [2][0 := 25] == [25];
    assert Byte(width, t3, 53) == t4;
    HearFirst(width, t4, last, rest);
    assert Byte(width, t4, last) == t.(visible := visible);
  }

  /** A reset arrives as the default rendition, a cursor that shows, and an empty screen with the cursor at home. */
  lemma ResetArrives(width: Width, t: Term)
    requires t.parse.Ground? && t.cols > 0 && t.rows > 0
    ensures Hear(width, t, O.RESET_BYTES + O.CLEAR_BYTES)
      == t.(rendition := [0], visible := true, erased := |t.shown|, col := 0, row := 0, wrap := false)
  {
    hide Hear;
    hide O.CLEAR_BYTES;
    var rest := O.VisibleBytes(true) + O.CLEAR_BYTES;
    assert O.RESET_BYTES + O.CLEAR_BYTES == O.CSI + ([48] + ([109] + rest));
    OpenCsi(width, t, [48] + ([109] + rest));
    var t1 := t.(parse := Csi(FIRST_PARAM, false));
    HearFirst(width, t1, 48, [109] + rest);
    assert FIRST_PARAM[0 := 0] == FIRST_PARAM;
    HearFirst(width, t1, 109, rest);
    VisibleArrives(width, t.(rendition := [0]), true, O.CLEAR_BYTES);
    ClearHomes(width, t.(rendition := [0], visible := true));
  }

  // ---- whole sessions ----

  predicate PredictableCall(width: Width, c: O.Call) {
    c.OutputString? ==> forall u :: u in c.s ==> Predictable(width, u)
  }

  /** The characters that a sequence of calls puts on the screen. */
  function PrintedAll(calls: seq<O.Call>): seq<int>
    decreases |calls|
  {
    if calls == [] then []
    else (if calls[0].OutputString? then Printed(calls[0].s) else []) + PrintedAll(calls[1..])
  }

  lemma CallStep(width: Width, o: O.Screen, t: Term, c: O.Call)
    requires O.Fits(o) && Same(o, t) && PredictableCall(width, c)
    ensures var t' := Hear(width, t, O.CallBytes(o, c));
      && Same(O.After(o, c), t')
      && Codes(t'.shown) == Codes(t.shown) + (if c.OutputString? then Printed(c.s) else [])
  {
    hide Hear;
    hide Codes;
    assert Codes(t.shown) + [] == Codes(t.shown);
    hide O.CursorBytes;
    hide O.AttributeBytes;
    hide O.VisibleBytes;
    HearNothing(width, t);
    if O.Accepted(o, c) {
      match c
      case OutputString(s) => StringStep(width, o, t, s);
      case SetCursorPosition(col, row) => CursorMoves(width, o, t, col, row);
      case ClearScreen => ClearHomes(width, t);
      case SetAttribute(a) => AttributeArrives(width, t, a);
      case EnableCursor(v) =>
        VisibleArrives(width, t, v, []);
        HearNothing(width, t.(visible := v));
        assert O.VisibleBytes(v) + [] == O.VisibleBytes(v);
      case Reset => ResetArrives(width, t);
    }
  }

  lemma {:induction false} CallsStep(width: Width, o: O.Screen, t: Term, calls: seq<O.Call>)
    requires O.Fits(o) && Same(o, t) && forall c :: c in calls ==> PredictableCall(width, c)
    ensures var t' := Hear(width, t, O.AllBytes(o, calls));
      && Same(O.AfterAll(o, calls), t')
      && Codes(t'.shown) == Codes(t.shown) + PrintedAll(calls)
    decreases |calls|
  {
    hide Codes;
    hide Printed;
    hide Same;
    hide O.Fits;
    hide O.After;
    hide O.CallBytes;
    hide Hear;
    hide PredictableCall;
    if calls == [] {
      HearNothing(width, t);
      assert Codes(t.shown) + [] == Codes(t.shown);
    } else {
      var b := O.CallBytes(o, calls[0]);
      Associates(Codes(t.shown), if calls[0].OutputString? then Printed(calls[0].s) else [], PrintedAll(calls[1..]));
      CallStep(width, o, t, calls[0]);
      O.CallFits(o, calls[0]);
      CallsStep(width, O.After(o, calls[0]), Hear(width, t, b), calls[1..]);
      HearAppend(width, t, b, O.AllBytes(O.After(o, calls[0]), calls[1..]));
    }
  }

  /** A call that puts prediction and terminal in step, whatever either thought before. */
  predicate Synchronises(o: O.Screen, c: O.Call) {
    c.ClearScreen? || c.Reset? || (c.SetCursorPosition? && O.Accepted(o, c))
  }

  /** The simulation: from a clear, a reset or an explicit cursor address on, after any calls whatever, the predicted
      column, row and pending wrap are the terminal's own, and the characters of the strings are what it has shown. */
  lemma CursorSimulation(width: Width, o: O.Screen, t: Term, first: O.Call, calls: seq<O.Call>)
    requires O.Fits(o) && Synchronises(o, first) && t.parse.Ground? && t.cols == o.cols && t.rows == o.rows
    requires forall c :: c in calls ==> PredictableCall(width, c)
    ensures var all := [first] + calls;
      var t' := Hear(width, t, O.AllBytes(o, all));
      && Same(O.AfterAll(o, all), t')
      && Codes(t'.shown) == Codes(t.shown) + PrintedAll(calls)
  {
    hide Codes;
    hide Hear;
    hide O.CursorBytes;
    hide O.AllBytes;
    hide O.AfterAll;
    hide PredictableCall;
    var o1, b := O.After(o, first), O.CallBytes(o, first);
    match first {
      case SetCursorPosition(col, row) => CursorMoves(width, o, t, col, row);
      case ClearScreen => ClearHomes(width, t);
      case Reset => ResetArrives(width, t);
      case _ =>
    }
    O.CallFits(o, first);
    CallsStep(width, o1, Hear(width, t, b), calls);
    HearAppend(width, t, b, O.AllBytes(o1, calls));
    FirstCall(o, first, calls);
  }

  lemma FirstCall(o: O.Screen, first: O.Call, calls: seq<O.Call>)
    ensures O.AfterAll(o, [first] + calls) == O.AfterAll(O.After(o, first), calls)
    ensures O.AllBytes(o, [first] + calls) == O.CallBytes(o, first) + O.AllBytes(O.After(o, first), calls)
  {
    assert ([first] + calls)[1..] == calls;
  }
}
