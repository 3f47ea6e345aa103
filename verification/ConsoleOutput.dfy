/** The output half of the console shim: strings of 16-bit units become UTF-8 and escape sequences, and the cursor of the
    terminal that will read them is predicted. */
module ConsoleOutput {
  import opened Bytes

  const OUT_BUF: nat := 2048

  /** Where the shim believes the terminal's cursor to be. */
  datatype Screen = Screen(cols: nat, rows: nat, col: nat, row: nat, wrap: bool)

  predicate Fits(o: Screen) {
    o.cols >= 20 && o.rows >= 5 && o.col < o.cols && o.row < o.rows && (o.wrap ==> o.col == o.cols - 1)
  }

  // ---- what each call emits, and what it predicts ----

  function Digits(v: nat): (d: seq<byte>)
    ensures d != []
  {
    if v < 10 then [48 + v] else Digits(v / 10) + [48 + v % 10]
  }

  /** The unit as UTF-8 (RFC 3629 section 3), applied to one 16-bit unit at a time. */
  function Encode(c: uint16): seq<byte> {
    if c < 0x80 then [c]
    else if c < 0x800 then [0xC0 + c / 64, 0x80 + c % 64]
    else [0xE0 + c / 4096, 0x80 + c / 64 % 64, 0x80 + c % 64]
  }

  function RowDown(o: Screen): Screen {
    if o.row + 1 < o.rows then o.(row := o.row + 1) else o
  }

  function TabCol(o: Screen): nat {
    var next := o.col / 8 * 8 + 8;
    if next >= o.cols && o.cols > 0 then o.cols - 1 else next
  }

  function Advance(o: Screen): Screen {
    var o1 := if o.wrap then RowDown(o.(col := 0, wrap := false)) else o;
    if o1.col + 1 >= o1.cols && o1.cols > 0 then o1.(col := o1.cols - 1, wrap := true) else o1.(col := o1.col + 1)
  }

  function AfterUnit(o: Screen, c: uint16): Screen {
    if c == 10 then RowDown(o.(col := 0, wrap := false))
    else if c == 13 then o.(col := 0, wrap := false)
    else if c == 8 then o.(col := if o.col > 0 then o.col - 1 else 0, wrap := false)
    else if c == 9 then o.(col := TabCol(o), wrap := false)
    else if c < 0x20 then o
    else Advance(o)
  }

  function UnitBytes(o: Screen, c: uint16): seq<byte> {
    if c == 10 then [13, 10]
    else if c == 13 then [13]
    else if c == 8 then (if o.col > 0 then [8] else [])
    else if c == 9 then [9]
    else Encode(c)
  }

  function AfterString(o: Screen, s: seq<uint16>): Screen
    decreases |s|
  {
    if s == [] then o else AfterString(AfterUnit(o, s[0]), s[1..])
  }

  function StringBytes(o: Screen, s: seq<uint16>): seq<byte>
    decreases |s|
  {
    if s == [] then [] else UnitBytes(o, s[0]) + StringBytes(AfterUnit(o, s[0]), s[1..])
  }

  const CSI: seq<byte> := [0x1B, 91]

  function CursorBytes(col: nat, row: nat): seq<byte> {
    CSI + Digits(row + 1) + [59] + Digits(col + 1) + [72]
  }

  const CLEAR_BYTES: seq<byte> := [0x1B, 91, 50, 74, 0x1B, 91, 72]

  const EFI_TO_ANSI: seq<nat> := [0, 4, 2, 6, 1, 5, 3, 7]

  /** Three bits of colour each, in the other order of red and blue; bit 3 asks for the bright foreground. */
  function Foreground(attr: nat): (n: nat)
    ensures n < 100
  {
    (if attr / 8 % 2 == 1 then 90 else 30) + EFI_TO_ANSI[attr % 8]
  }

  function Background(attr: nat): (n: nat)
    ensures n < 100
  {
    40 + EFI_TO_ANSI[attr / 16 % 8]
  }

  function AttributeBytes(attr: nat): seq<byte> {
    CSI + [48, 59] + Digits(Foreground(attr)) + [59] + Digits(Background(attr)) + [109]
  }

  function VisibleBytes(visible: bool): seq<byte> {
    [0x1B, 91, 63, 50, 53, if visible then 104 else 108]
  }

  const RESET_BYTES: seq<byte> := [0x1B, 91, 48, 109, 0x1B, 91, 63, 50, 53, 104]

  /** The calls of the protocol that put anything on the wire. */
  datatype Call =
    | OutputString(s: seq<uint16>)
    | SetCursorPosition(col: nat, row: nat)
    | ClearScreen
    | SetAttribute(attr: nat)
    | EnableCursor(visible: bool)
    | Reset

  predicate Accepted(o: Screen, c: Call) {
    match c
    case SetCursorPosition(col, row) => col < o.cols && row < o.rows
    case SetAttribute(a) => a <= 0x7F
    case _ => true
  }

  /** What the shim predicts after a call; a refused call changes nothing. */
  function After(o: Screen, c: Call): Screen {
    if !Accepted(o, c) then o
    else
      match c
      case OutputString(s) => AfterString(o, s)
      case SetCursorPosition(col, row) => o.(col := col, row := row, wrap := false)
      case ClearScreen => o.(col := 0, row := 0, wrap := false)
      case Reset => o.(col := 0, row := 0, wrap := false)
      case _ => o
  }

  function CallBytes(o: Screen, c: Call): seq<byte> {
    if !Accepted(o, c) then []
    else
      match c
      case OutputString(s) => StringBytes(o, s)
      case SetCursorPosition(col, row) => CursorBytes(col, row)
      case ClearScreen => CLEAR_BYTES
      case SetAttribute(a) => AttributeBytes(a)
      case EnableCursor(v) => VisibleBytes(v)
      case Reset => RESET_BYTES + CLEAR_BYTES
  }

  function AfterAll(o: Screen, calls: seq<Call>): Screen
    decreases |calls|
  {
    if calls == [] then o else AfterAll(After(o, calls[0]), calls[1..])
  }

  function AllBytes(o: Screen, calls: seq<Call>): seq<byte>
    decreases |calls|
  {
    if calls == [] then [] else CallBytes(o, calls[0]) + AllBytes(After(o, calls[0]), calls[1..])
  }

  lemma UnitFits(o: Screen, c: uint16)
    requires Fits(o)
    ensures Fits(AfterUnit(o, c))
  {
  }

  lemma {:induction false} StringFits(o: Screen, s: seq<uint16>)
    requires Fits(o)
    ensures Fits(AfterString(o, s))
    decreases |s|
  {
    if s != [] {
      UnitFits(o, s[0]);
      StringFits(AfterUnit(o, s[0]), s[1..]);
    }
  }

  lemma CallFits(o: Screen, c: Call)
    requires Fits(o)
    ensures Fits(After(o, c))
  {
    if c.OutputString? {
      StringFits(o, c.s);
    }
  }

  // ---- the shim itself ----

  type OutLen = n: nat | n <= OUT_BUF

  class Output {
    const cols: nat
    const rows: nat
    var col: nat
    var row: nat
    var pendingWrap: bool
    var attribute: nat
    var cursorVisible: bool

    const outBuf: array<byte>
    var outLen: OutLen
    var outPoll: nat
    var disconnected: bool

    ghost var emitted: seq<byte>      // everything emitted so far
    ghost var flushed: seq<byte>      // what of it has left the buffer
    ghost var delivered: seq<byte>    // what of that SshWrite has taken

    ghost predicate Valid()
      reads `outLen, `disconnected, `flushed, `delivered, `emitted, outBuf
    {
      && outBuf.Length == OUT_BUF && emitted == flushed + outBuf[..outLen]
      && delivered <= flushed && (!disconnected ==> delivered == flushed)
    }

    /** What has been delivered stays delivered, and a refusal is final: nothing is delivered after it. */
    twostate predicate Final()
      reads this
    {
      old(delivered) <= delivered && (old(disconnected) ==> disconnected && delivered == old(delivered))
    }

    function View(): Screen
      reads this
    {
      Screen(cols, rows, col, row, pendingWrap)
    }

    /** RefreshSize's rule, once: a window too small or unknown counts as 80 by 25. */
    constructor (windowCols: uint32, windowRows: uint32)
      ensures Valid() && fresh(outBuf) && outLen == 0 && emitted == []
      ensures Fits(View()) && View() ==
        Screen(if windowCols >= 20 then windowCols else 80, if windowRows >= 5 then windowRows else 25, 0, 0, false)
    {
      cols := if windowCols >= 20 then windowCols else 80;
      rows := if windowRows >= 5 then windowRows else 25;
      col, row, pendingWrap, attribute, cursorVisible := 0, 0, false, 7, true;
      outBuf := new byte[OUT_BUF];
      outLen, outPoll, disconnected := 0, 0, false;
      emitted, flushed, delivered := [], [], [];
    }

    /** SshWrite may refuse; then the shim is disconnected for good and the bytes go to the local screen instead. */
    method Flush()
      requires Valid()
      modifies `outLen, `disconnected, `flushed, `delivered
      ensures Valid() && Final() && outLen == 0
    {
      if outLen == 0 {
        return;
      }
      if !disconnected {
        var taken: bool := *;
        if taken {
          delivered := delivered + outBuf[..outLen];
        } else {
          disconnected := true;
        }
      }
      flushed := emitted;
      outLen := 0;
    }

    method EmitByte(b: byte)
      requires Valid()
      modifies `outLen, `disconnected, `flushed, `delivered, `emitted, outBuf
      ensures Valid() && Final() && emitted == old(emitted) + [b]
    {
      if outLen >= OUT_BUF {
        Flush();
      }
      ghost var before := outBuf[..outLen];
      outBuf[outLen] := b;
      outLen := outLen + 1;
      emitted := emitted + [b];
      assert outBuf[..outLen] == before + [b];
    }

    method Emit(s: seq<byte>)
      requires Valid()
      modifies `outLen, `disconnected, `flushed, `delivered, `emitted, outBuf
      ensures Valid() && Final() && emitted == old(emitted) + s
    {
      var i := 0;
      while i < |s|
        invariant Valid() && Final() && i <= |s| && emitted == old(emitted) + s[..i]
      {
        EmitByte(s[i]);
        i := i + 1;
      }
    }

    /** Decimal digits, least significant first into a scratch buffer, then out in reverse. */
    method EmitNum(v: nat)
      requires Valid() && v < 1_000_000_000_000
      modifies `outLen, `disconnected, `flushed, `delivered, `emitted, outBuf
      ensures Valid() && Final() && emitted == old(emitted) + Digits(v)
    {
      hide Valid;
      hide Back;
      hide Digits;
      var tmp, n := Decimal(v);
      ghost var d := tmp[..n];
      assert d[..n] == d;
      while n > 0
        invariant Valid() && Final()
        invariant n <= |d| <= tmp.Length
        invariant tmp[..|d|] == d
        invariant emitted + Back(d[..n]) == old(emitted) + Back(d)
      {
        n := n - 1;
        BackTaken(d, n);
        assert tmp[n] == d[n];
        Associates(emitted, [d[n]], Back(d[..n]));
        EmitByte(tmp[n]);
      }
      NothingBack(emitted, d);
    }

    method EmitUtf8(c: uint16)
      requires Valid()
      modifies `outLen, `disconnected, `flushed, `delivered, `emitted, outBuf
      ensures Valid() && Final() && emitted == old(emitted) + Encode(c)
    {
      hide Valid;
      ghost var e := emitted;
      if c < 0x80 {
        EmitByte(c);
      } else if c < 0x800 {
        EmitByte(0xC0 + c / 64);
        EmitByte(0x80 + c % 64);
        Associates(e, [0xC0 + c / 64], [0x80 + c % 64]);
      } else {
        EmitByte(0xE0 + c / 4096);
        EmitByte(0x80 + c / 64 % 64);
        EmitByte(0x80 + c % 64);
        Associates(e, [0xE0 + c / 4096], [0x80 + c / 64 % 64]);
        Associates(e, [0xE0 + c / 4096] + [0x80 + c / 64 % 64], [0x80 + c % 64]);
      }
    }

    method StepDown()
      modifies `row
      ensures View() == RowDown(old(View()))
    {
      if row + 1 < rows {
        row := row + 1;
      }
    }

    method PutUnit(c: uint16)
      requires Valid() && Fits(View())
      modifies `col, `row, `pendingWrap, `outLen, `disconnected, `flushed, `delivered, `emitted, outBuf
      ensures Valid() && Final() && Fits(View())
      ensures View() == AfterUnit(old(View()), c) && emitted == old(emitted) + UnitBytes(old(View()), c)
    {
      hide Valid;
      if c == 10 {
        EmitByte(13);
        EmitByte(10);
        col, pendingWrap := 0, false;
        StepDown();
      } else if c == 13 {
        EmitByte(13);
        col, pendingWrap := 0, false;
      } else if c == 8 {
        if col > 0 {
          col := col - 1;
          EmitByte(8);
        }
        pendingWrap := false;
      } else if c == 9 {
        EmitByte(9);
        col := col / 8 * 8 + 8;
        if col >= cols {
          col := cols - 1;
        }
        pendingWrap := false;
      } else if c < 0x20 {
        EmitByte(c);
      } else {
        PutPrintable(c);
      }
    }

    method PutPrintable(c: uint16)
      requires Valid() && Fits(View())
      modifies `col, `row, `pendingWrap, `outLen, `disconnected, `flushed, `delivered, `emitted, outBuf
      ensures Valid() && Final() && Fits(View())
      ensures View() == Advance(old(View())) && emitted == old(emitted) + Encode(c)
    {
      if pendingWrap {
        col := 0;
        StepDown();
        pendingWrap := false;
      }
      EmitUtf8(c);
      if col + 1 >= cols {
        col, pendingWrap := cols - 1, true;
      } else {
        col := col + 1;
      }
    }

    /** Every 16th call first looks at the connection, which may turn out to be gone. */
    method OutputString(s: seq<uint16>)
      requires Valid() && Fits(View())
      modifies `col, `row, `pendingWrap, `outLen, `outPoll, `disconnected, `flushed, `delivered, `emitted, outBuf
      ensures Valid() && Final() && Fits(View()) && outLen == 0
      ensures View() == After(old(View()), Call.OutputString(s))
      ensures emitted == old(emitted) + CallBytes(old(View()), Call.OutputString(s))
    {
      Poll();
      PutString(s);
      Flush();
    }

    method Poll()
      requires Valid()
      modifies `outPoll, `disconnected
      ensures Valid() && Final()
    {
      outPoll := outPoll + 1;
      if outPoll % 16 == 0 && !disconnected {
        var alive: bool := *;
        if !alive {
          disconnected := true;
        }
      }
    }

    method PutString(s: seq<uint16>)
      requires Valid() && Fits(View())
      modifies `col, `row, `pendingWrap, `outLen, `disconnected, `flushed, `delivered, `emitted, outBuf
      ensures Valid() && Final() && Fits(View())
      ensures View() == AfterString(old(View()), s) && emitted == old(emitted) + StringBytes(old(View()), s)
    {
      hide Valid;
      hide Fits;
      hide AfterUnit;
      hide UnitBytes;
      var i := 0;
      while i < |s|
        invariant Valid() && Final() && Fits(View()) && i <= |s|
        invariant AfterString(View(), s[i..]) == AfterString(old(View()), s)
        invariant emitted + StringBytes(View(), s[i..]) == old(emitted) + StringBytes(old(View()), s)
      {
        assert s[i..][0] == s[i] && s[i..][1..] == s[i + 1..];
        PutUnit(s[i]);
        i := i + 1;
      }
      assert emitted + [] == emitted;
    }

    method ClearScreen()
      requires Valid()
      modifies `col, `row, `pendingWrap, `outLen, `disconnected, `flushed, `delivered, `emitted, outBuf
      ensures Valid() && Final() && outLen == 0
      ensures View() == After(old(View()), Call.ClearScreen)
      ensures emitted == old(emitted) + CallBytes(old(View()), Call.ClearScreen)
    {
      Emit(CLEAR_BYTES);
      col, row, pendingWrap := 0, 0, false;
      Flush();
    }

    method SetAttribute(attr: nat) returns (ok: bool)
      requires Valid()
      modifies `attribute, `outLen, `disconnected, `flushed, `delivered, `emitted, outBuf
      ensures Valid() && Final() && ok == Accepted(View(), Call.SetAttribute(attr)) && (ok ==> outLen == 0 && attribute == attr)
      ensures !ok ==> outLen == old(outLen) && attribute == old(attribute)
      ensures emitted == old(emitted) + CallBytes(old(View()), Call.SetAttribute(attr))
    {
      hide Valid;
      hide AttributeBytes;
      if attr > 0x7F {
        assert emitted + [] == emitted;
        return false;
      }
      attribute := attr;
      EmitAttribute(attr);
      Flush();
      ok := true;
    }

    method EmitAttribute(attr: nat)
      requires Valid()
      modifies `outLen, `disconnected, `flushed, `delivered, `emitted, outBuf
      ensures Valid() && Final() && emitted == old(emitted) + AttributeBytes(attr)
    {
      hide Digits;
      hide Valid;
      hide Foreground;
      hide Background;
      ghost var e := emitted;
      Emit(CSI + [48, 59]);
      EmitNum(Foreground(attr));
      EmitByte(59);
      EmitNum(Background(attr));
      EmitByte(109);
      FiveParts(e, CSI + [48, 59], Digits(Foreground(attr)), [59], Digits(Background(attr)), [109]);
    }

    method MoveTo(column: nat, line: nat)
      modifies `col, `row, `pendingWrap
      ensures View() == old(View()).(col := column, row := line, wrap := false)
    {
      col, row, pendingWrap := column, line, false;
    }

    method SetCursorPosition(column: nat, line: nat) returns (ok: bool)
      requires Valid() && cols < TWO32 && rows < TWO32
      modifies `col, `row, `pendingWrap, `outLen, `disconnected, `flushed, `delivered, `emitted, outBuf
      ensures Valid() && Final() && ok == Accepted(old(View()), Call.SetCursorPosition(column, line)) && (ok ==> outLen == 0)
      ensures !ok ==> outLen == old(outLen)
      ensures View() == After(old(View()), Call.SetCursorPosition(column, line))
      ensures emitted == old(emitted) + CallBytes(old(View()), Call.SetCursorPosition(column, line))
    {
      if column >= cols || line >= rows {
        return false;
      }
      hide Valid;
      hide CursorBytes;
      MoveTo(column, line);
      EmitCursor(column, line);
      Flush();
      ok := true;
    }

    method EmitCursor(column: nat, line: nat)
      requires Valid() && column < TWO32 && line < TWO32
      modifies `outLen, `disconnected, `flushed, `delivered, `emitted, outBuf
      ensures Valid() && Final() && emitted == old(emitted) + CursorBytes(column, line)
    {
      hide Digits;
      hide Valid;
      ghost var e := emitted;
      Emit(CSI);
      EmitNum(line + 1);
      EmitByte(59);
      EmitNum(column + 1);
      EmitByte(72);
      FiveParts(e, CSI, Digits(line + 1), [59], Digits(column + 1), [72]);
    }

    method EnableCursor(visible: bool)
      requires Valid()
      modifies `cursorVisible, `outLen, `disconnected, `flushed, `delivered, `emitted, outBuf
      ensures Valid() && Final() && outLen == 0 && cursorVisible == visible
      ensures emitted == old(emitted) + CallBytes(old(View()), Call.EnableCursor(visible))
    {
      cursorVisible := visible;
      Emit(VisibleBytes(visible));
      Flush();
    }

    method Reset()
      requires Valid()
      modifies `col, `row, `pendingWrap, `attribute, `cursorVisible
      modifies `outLen, `disconnected, `flushed, `delivered, `emitted, outBuf
      ensures Valid() && Final() && outLen == 0 && attribute == 7 && cursorVisible
      ensures View() == After(old(View()), Call.Reset)
      ensures emitted == old(emitted) + CallBytes(old(View()), Call.Reset)
    {
      attribute, cursorVisible := 7, true;
      Emit(RESET_BYTES);
      Flush();
      ClearScreen();
    }
  }

  function Back(d: seq<byte>): seq<byte> {
    if d == [] then [] else [d[|d| - 1]] + Back(d[..|d| - 1])
  }

  lemma BackTaken(d: seq<byte>, n: nat)
    requires n < |d|
    ensures Back(d[..n + 1]) == [d[n]] + Back(d[..n])
  {
    assert d[..n + 1][..n] == d[..n];
  }

  lemma NothingBack(e: seq<byte>, d: seq<byte>)
    ensures e + Back(d[..0]) == e
  {
  }

  lemma BackSnoc(a: seq<byte>, b: byte)
    ensures Back(a + [b]) == [b] + Back(a)
  {
    assert (a + [b])[..|a|] == a;
  }

  function HighDigits(w: nat): seq<byte> {
    if w == 0 then [] else Digits(w)
  }

  /** How many decimal digits a number has. */
  function Places(v: nat): nat {
    if v < 10 then 1 else 1 + Places(v / 10)
  }

  function Pow10(k: nat): nat {
    if k == 0 then 1 else 10 * Pow10(k - 1)
  }

  lemma FiveParts(start: seq<byte>, a: seq<byte>, b: seq<byte>, c: seq<byte>, d: seq<byte>, e: seq<byte>)
    ensures start + a + b + c + d + e == start + (a + b + c + d + e)
  {
    Associates(start, a, b);
    Associates(start, a + b, c);
    Associates(start, a + b + c, d);
    Associates(start, a + b + c + d, e);
  }

  lemma {:induction false} PlacesFew(v: nat, k: nat)
    requires k >= 1 && v < Pow10(k)
    ensures Places(v) <= k
  {
    if v >= 10 {
      PlacesFew(v / 10, k - 1);
    }
  }

  lemma TwelvePlaces()
    ensures Pow10(12) == 1_000_000_000_000
  {
    assert Pow10(4) == 10000;
    assert Pow10(8) == 10000 * Pow10(4);
  }

  function LastDigit(w: nat): byte {
    48 + w % 10
  }

  lemma HighStep(w: nat, low: seq<byte>)
    requires w != 0
    ensures HighDigits(w) + low == HighDigits(w / 10) + ([LastDigit(w)] + low)
  {
    assert Digits(w) == HighDigits(w / 10) + [LastDigit(w)];
  }

  lemma OneDigit(v: nat)
    ensures HighDigits(v / 10) + Back([LastDigit(v)]) == Digits(v)
    ensures forall low :: HighDigits(0) + low == low
  {
    var d: byte := LastDigit(v);
    assert [d][..0] == [];
    assert Back([d]) == [d];
  }

  lemma PlacesStep(w: nat)
    ensures Places(w) == if w / 10 == 0 then 1 else 1 + Places(w / 10)
  {
  }

  method Decimal(v: nat) returns (tmp: array<byte>, n: nat)
    requires v < 1_000_000_000_000
    ensures fresh(tmp) && n <= tmp.Length && Back(tmp[..n]) == Digits(v)
  {
    tmp := new byte[12];
    tmp[0] := LastDigit(v);
    n := 1;
    hide Digits;
    hide HighDigits;
    hide Back;
    hide LastDigit;
    OneDigit(v);
    assert tmp[..1] == [LastDigit(v)];
    var w: nat := v / 10;
    TwelvePlaces();
    PlacesFew(v, 12);
    hide Places;
    while w != 0
      invariant 1 <= n && n + (if w == 0 then 0 else Places(w)) <= 12
      invariant HighDigits(w) + Back(tmp[..n]) == Digits(v)
      decreases w
    {
      ghost var before := tmp[..n];
      PlacesStep(w);
      tmp[n] := LastDigit(w);
      n := n + 1;
      assert tmp[..n] == before + [LastDigit(w)];
      BackSnoc(before, LastDigit(w));
      HighStep(w, Back(before));
      w := w / 10;
    }
  }

  // ---- any sequence of calls ----

  method Make(o: Output, c: Call)
    requires o.Valid() && Fits(o.View()) && o.cols < TWO32 && o.rows < TWO32 && o.outLen == 0
    modifies o, o.outBuf
    ensures o.Valid() && o.Final() && Fits(o.View()) && o.outLen == 0
    ensures o.View() == After(old(o.View()), c) && o.emitted == old(o.emitted) + CallBytes(old(o.View()), c)
  {
    CallFits(o.View(), c);
    assert o.emitted + [] == o.emitted;
    match c
    case OutputString(s) => o.OutputString(s);
    case SetCursorPosition(col, row) => var _ := o.SetCursorPosition(col, row);
    case ClearScreen => o.ClearScreen();
    case SetAttribute(a) => var _ := o.SetAttribute(a);
    case EnableCursor(v) => o.EnableCursor(v);
    case Reset => o.Reset();
  }

  /** Whatever a program does with the shim: the bytes and the prediction are those of its calls in order, every byte has
      left the buffer, the client has had all of them as long as no write was refused, and none after one was. */
  method MakeAll(o: Output, calls: seq<Call>)
    requires o.Valid() && Fits(o.View()) && o.cols < TWO32 && o.rows < TWO32 && o.outLen == 0
    modifies o, o.outBuf
    ensures o.Valid() && o.Final() && Fits(o.View()) && o.outLen == 0
    ensures o.View() == AfterAll(old(o.View()), calls) && o.emitted == old(o.emitted) + AllBytes(old(o.View()), calls)
    ensures (!o.disconnected ==> o.delivered == o.emitted) && o.delivered <= o.emitted
    decreases |calls|
  {
    hide Fits;
    hide After;
    hide CallBytes;
    if calls == [] {
      assert o.emitted + [] == o.emitted;
      return;
    }
    ghost var e, v := o.emitted, o.View();
    Make(o, calls[0]);
    MakeAll(o, calls[1..]);
    Associates(e, CallBytes(v, calls[0]), AllBytes(After(v, calls[0]), calls[1..]));
  }
}
