/** Line ends in the client's stream, told from its bytes alone: which bytes are plain, and when every CR LF, CR and LF
    types exactly one Return. */
module LineEnds {
  import opened Bytes
  import opened ConsoleInput

  // ---- which bytes are plain ----

  /** Where a byte stands: how many bytes of an escape sequence precede it and whether that is an SS3 sequence, how many
      bytes of a character are missing, and whether those that came have no bit set. */
  datatype Place = Place(held: nat, ss3: bool, need: nat, zero: bool)

  const START := Place(0, false, 0, true)

  predicate Continues(b: byte) {
    0x80 <= b < 0xC0
  }

  function MoveText(p: Place, b: byte): Place {
    if b == ESC then p.(held := 1, ss3 := false)
    else if p.need > 0 && Continues(b) then Place(0, false, p.need - 1, p.zero && b == 0x80)
    else if b >= 0xF0 then Place(0, false, 3, b % 8 == 0)
    else if b >= 0xE0 then Place(0, false, 2, b == 0xE0)
    else if b >= 0xC0 then Place(0, false, 1, b == 0xC0)
    else START
  }

  function Move(p: Place, b: byte): Place {
    if p.held == 0 then MoveText(p, b)
    else if p.held == 1 then (if b == 91 || b == 79 then p.(held := 2, ss3 := b == 79) else MoveText(p, b))
    else if p.ss3 || 0x40 <= b <= 0x7E || p.held + 1 >= ESC_BUF then p.(held := 0, ss3 := false)
    else p.(held := p.held + 1)
  }

  function PlaceAfter(s: seq<byte>): Place
    decreases |s|
  {
    if s == [] then START else Move(PlaceAfter(s[..|s| - 1]), s[|s| - 1])
  }

  /** Not in an escape sequence, nor what opens one. */
  predicate Outside(p: Place, b: byte) {
    b != ESC && (p.held == 0 || (p.held == 1 && b != 91 && b != 79))
  }

  /** A character of its own: outside every sequence, and no part of a longer character. */
  predicate IsPlain(p: Place, b: byte) {
    Outside(p, b) && b < 0xC0 && !(p.need > 0 && Continues(b))
  }

  predicate PlainAt(s: seq<byte>, i: nat)
    requires i < |s|
  {
    IsPlain(PlaceAfter(s[..i]), s[i])
  }

  /** The last plain byte is a CR. */
  predicate CrPending(s: seq<byte>)
    decreases |s|
  {
    s != [] && (if PlainAt(s, |s| - 1) then s[|s| - 1] == CR else CrPending(s[..|s| - 1]))
  }

  /** The last byte of a longer character that spells a carriage return with too many bytes. */
  predicate SpellsReturn(s: seq<byte>, i: nat)
    requires i < |s|
  {
    var p := PlaceAfter(s[..i]);
    Outside(p, s[i]) && p.need == 1 && p.zero && s[i] == 0x8D
  }

  // ---- the decoder sees the same ----

  predicate Seen(d: Dec, s: seq<byte>) {
    var p := PlaceAfter(s);
    && p.held == |d.esc| && p.need == d.need
    && (p.held >= 2 ==> (p.ss3 <==> d.esc[1] == 79))
    && (p.need > 0 ==> (p.zero <==> d.acc == 0))
    && (d.lastCr <==> CrPending(s))
  }

  lemma SeenText(d: Dec, p: Place, b: byte)
    requires DecOk(d) && d.esc == [] && p.need == d.need && (p.need > 0 ==> (p.zero <==> d.acc == 0))
    ensures var r, q := InText(d, b), MoveText(p, b);
      && q.held == |r.d.esc| && q.need == r.d.need && q.held <= 1
      && (q.need > 0 ==> (q.zero <==> r.d.acc == 0))
      && r.d.lastCr == (if b != ESC && b < 0xC0 && !(p.need > 0 && Continues(b)) then b == CR else d.lastCr)
  {
  }

  lemma SeenEscape(d: Dec, p: Place, b: byte)
    requires DecOk(d) && d.esc != [] && p.held == |d.esc| && p.need == d.need
    requires p.need > 0 ==> (p.zero <==> d.acc == 0)
    requires p.held >= 2 ==> (p.ss3 <==> d.esc[1] == 79)
    ensures var r, q := InEscape(d, b), Move(p, b);
      && q.held == |r.d.esc| && q.need == r.d.need
      && (q.held >= 2 ==> (q.ss3 <==> r.d.esc[1] == 79))
      && (q.need > 0 ==> (q.zero <==> r.d.acc == 0))
      && r.d.lastCr == (if IsPlain(p, b) then b == CR else d.lastCr)
  {
    hide InText;
    hide MoveText;
    if p.held == 1 {
      DecOkEsc(d);
      SeenText(d.(esc := []), p, b);
    }
  }

  lemma SeenStep(d: Dec, s: seq<byte>, b: byte)
    requires DecOk(d) && Seen(d, s)
    ensures Seen(Feed(d, b).d, s + [b])
  {
    hide InText;
    hide InEscape;
    hide MoveText;
    assert (s + [b])[..|s|] == s && (s + [b])[|s|] == b;
    var p := PlaceAfter(s);
    if d.esc == [] {
      SeenText(d, p, b);
    } else {
      SeenEscape(d, p, b);
    }
  }

  /** The decoder's flag is a fact about the bytes: it is set exactly when the last plain byte is a CR. */
  lemma {:induction false} SeenAll(s: seq<byte>)
    ensures DecOk(FeedAll(FRESH, s).d) && Seen(FeedAll(FRESH, s).d, s)
    ensures FeedAll(FRESH, s).d.lastCr <==> CrPending(s)
    decreases |s|
  {
    hide Seen;
    hide Feed;
    if s == [] {
      SeenNothing();
    } else {
      hide FeedAll;
      var init, b := s[..|s| - 1], s[|s| - 1];
      SeenAll(init);
      assert s == init + [b];
      SeenStep(FeedAll(FRESH, init).d, init, b);
      FeedOk(FeedAll(FRESH, init).d, b);
      FeedAppend(FRESH, init, [b]);
      FeedOne(FeedAll(FRESH, init).d, b);
    }
    SeenMeans(FeedAll(FRESH, s).d, s);
  }

  lemma SeenNothing()
    ensures Seen(FRESH, []) && DecOk(FRESH)
  {
  }

  lemma SeenMeans(d: Dec, s: seq<byte>)
    requires Seen(d, s)
    ensures d.lastCr <==> CrPending(s)
  {
  }

  // ---- Return keys and line ends ----

  function Returns(keys: seq<Key>): nat
    decreases |keys|
  {
    if keys == [] then 0 else Returns(keys[..|keys| - 1]) + (if keys[|keys| - 1] == RETURN then 1 else 0)
  }

  /** A byte that ends a line: a CR, or a LF that is not the second half of a CR LF. */
  predicate EndsLine(s: seq<byte>, i: nat)
    requires i < |s|
  {
    s[i] == CR || (s[i] == LF && !(i > 0 && s[i - 1] == CR))
  }

  function LineCount(s: seq<byte>): nat
    decreases |s|
  {
    if s == [] then 0 else LineCount(s[..|s| - 1]) + (if EndsLine(s, |s| - 1) then 1 else 0)
  }

  /** Exactly when a byte types a Return. */
  predicate TypesReturn(s: seq<byte>, i: nat)
    requires i < |s|
  {
    (PlainAt(s, i) && (s[i] == CR || (s[i] == LF && !CrPending(s[..i])))) || SpellsReturn(s, i)
  }

  lemma {:induction false} ReturnsAppend(a: seq<Key>, b: seq<Key>)
    ensures Returns(a + b) == Returns(a) + Returns(b)
    decreases |b|
  {
    if b == [] {
      assert a + b == a;
    } else {
      assert (a + b)[..|a + b| - 1] == a + b[..|b| - 1];
      ReturnsAppend(a, b[..|b| - 1]);
    }
  }

  lemma OneKey(k: Key)
    ensures Returns([k]) == (if k == RETURN then 1 else 0)
    ensures Returns([]) == 0
  {
    assert [k][..0] == [];
  }

  lemma TextReturns(d: Dec, p: Place, b: byte, pending: bool)
    requires DecOk(d) && d.esc == [] && p.need == d.need && (p.need > 0 ==> (p.zero <==> d.acc == 0))
    requires d.lastCr == pending
    ensures var plain := b != ESC && b < 0xC0 && !(p.need > 0 && Continues(b));
      Returns(InText(d, b).keys) ==
      if (plain && (b == CR || (b == LF && !pending))) || (p.need == 1 && p.zero && b == 0x8D) then 1 else 0
  {
    hide Returns;
    var keys := InText(d, b).keys;
    assert keys == [] || keys == [keys[0]];
    OneKey(if keys == [] then RETURN else keys[0]);
  }

  lemma EscapeReturns(d: Dec, p: Place, b: byte, pending: bool)
    requires DecOk(d) && d.esc != [] && p.held == |d.esc| && p.need == d.need
    requires (p.need > 0 ==> (p.zero <==> d.acc == 0)) && (p.held >= 2 ==> (p.ss3 <==> d.esc[1] == 79))
    requires d.lastCr == pending
    ensures Returns(InEscape(d, b).keys) ==
      if (IsPlain(p, b) && (b == CR || (b == LF && !pending))) || (Outside(p, b) && p.need == 1 && p.zero && b == 0x8D) then 1 else 0
  {
    hide Returns;
    hide InText;
    hide CsiKeys;
    hide LetterScan;
    OneKey(RETURN);
    if p.held == 1 && b != 91 && b != 79 {
      DecOkEsc(d);
      TextReturns(d.(esc := []), p, b, pending);
      OneKey(ESCAPE);
      ReturnsAppend([ESCAPE], InText(d.(esc := []), b).keys);
    } else {
      ScanReturns(LetterScan(b));
      if 0x40 <= b <= 0x7E && p.held >= 2 {
        CsiReturns((d.esc + [b])[2..|d.esc|], b);
      }
    }
  }

  lemma ScanReturns(scan: uint16)
    ensures Returns(ScanKeys(scan)) == 0
  {
    OneKey(KeyFor(scan, 0));
  }

  lemma CsiReturns(params: seq<byte>, final: byte)
    ensures Returns(CsiKeys(params, final)) == 0
  {
    hide Returns;
    hide ScanKeys;
    ScanReturns(if final == 126 then TildeScan(Number(params, 0)) else LetterScan(final));
  }

  /** What one more byte types, told from the bytes before it: a Return if it is plain and a CR, or plain and a LF and the
      last plain byte before it is no CR, or if it completes a carriage return spelt with too many bytes. A CR or LF inside
      an escape sequence types none. */
  lemma ReturnTyped(s: seq<byte>, b: byte)
    ensures var before, after := FeedAll(FRESH, s).keys, FeedAll(FRESH, s + [b]).keys;
      Returns(after) == Returns(before) + if TypesReturn(s + [b], |s|) then 1 else 0
  {
    hide Feed;
    hide FeedAll;
    hide Returns;
    var d := FeedAll(FRESH, s).d;
    SeenAll(s);
    FeedAppend(FRESH, s, [b]);
    FeedOne(d, b);
    ReturnsAppend(FeedAll(FRESH, s).keys, Feed(d, b).keys);
    assert (s + [b])[..|s|] == s;
    ReturnsOf(d, s, b);
  }

  lemma ReturnsOf(d: Dec, s: seq<byte>, b: byte)
    requires DecOk(d) && Seen(d, s)
    ensures (s + [b])[..|s|] == s
    ensures Returns(Feed(d, b).keys) == if TypesReturn(s + [b], |s|) then 1 else 0
  {
    hide Returns;
    hide InText;
    hide InEscape;
    hide CrPending;
    hide PlaceAfter;
    assert (s + [b])[..|s|] == s && (s + [b])[|s|] == b;
    if d.esc == [] {
      TextReturns(d, PlaceAfter(s), b, CrPending(s));
    } else {
      EscapeReturns(d, PlaceAfter(s), b, CrPending(s));
    }
  }

  // ---- the exact condition ----

  /** No CR inside a sequence; no LF of its own inside a sequence, or after a CR with no plain byte between them; no
      carriage return spelt with too many bytes. */
  predicate OrderlyAt(s: seq<byte>, i: nat)
    requires i < |s|
  {
    && (s[i] == CR ==> PlainAt(s, i))
    && (s[i] == LF && EndsLine(s, i) ==> PlainAt(s, i) && !CrPending(s[..i]))
    && !SpellsReturn(s, i)
  }

  predicate Orderly(s: seq<byte>) {
    forall i :: 0 <= i < |s| ==> OrderlyAt(s, i)
  }

  /** Each line end has typed its one Return, and nothing else has typed any, at every point of the stream. */
  ghost predicate OneReturnEach(s: seq<byte>) {
    forall n :: 0 <= n <= |s| ==> Returns(FeedAll(FRESH, s[..n]).keys) == LineCount(s[..n])
  }

  lemma Prefix(s: seq<byte>, n: nat)
    requires n < |s|
    ensures s[..n + 1] == s[..n] + [s[n]]
    ensures LineCount(s[..n + 1]) == LineCount(s[..n]) + (if EndsLine(s, n) then 1 else 0)
    ensures TypesReturn(s[..n + 1], n) == TypesReturn(s, n)
    ensures EndsLine(s[..n + 1], n) == EndsLine(s, n)
  {
    assert s[..n + 1] == s[..n] + [s[n]];
    assert s[..n + 1][..n] == s[..n];
  }

  lemma CountsStep(s: seq<byte>, n: nat)
    requires n < |s|
    ensures Returns(FeedAll(FRESH, s[..n + 1]).keys) == Returns(FeedAll(FRESH, s[..n]).keys) + (if TypesReturn(s, n) then 1 else 0)
    ensures LineCount(s[..n + 1]) == LineCount(s[..n]) + (if EndsLine(s, n) then 1 else 0)
  {
    hide FeedAll;
    hide Returns;
    hide TypesReturn;
    hide LineCount;
    hide EndsLine;
    Prefix(s, n);
    ReturnTyped(s[..n], s[n]);
  }

  lemma {:induction false} CountsAgree(s: seq<byte>, n: nat)
    requires n <= |s| && forall i :: 0 <= i < n ==> (TypesReturn(s, i) <==> EndsLine(s, i))
    ensures Returns(FeedAll(FRESH, s[..n]).keys) == LineCount(s[..n])
    decreases n
  {
    hide TypesReturn;
    hide EndsLine;
    if n > 0 {
      hide FeedAll;
      hide Returns;
      hide LineCount;
      CountsAgree(s, n - 1);
      CountsStep(s, n - 1);
    }
  }

  /** A plain CR right before a LF makes it plain, and its other half. */
  lemma SecondHalf(s: seq<byte>, i: nat)
    requires 0 < i < |s| && s[i] == LF && s[i - 1] == CR && PlainAt(s, i - 1)
    ensures CrPending(s[..i]) && !TypesReturn(s, i)
  {
    assert s[..i][..i - 1] == s[..i - 1] && s[..i][i - 1] == CR;
  }

  lemma OrderlyMeans(s: seq<byte>)
    ensures Orderly(s) <==> forall i :: 0 <= i < |s| ==> (TypesReturn(s, i) <==> EndsLine(s, i))
  {
    hide PlainAt;
    hide CrPending;
    if Orderly(s) {
      forall i | 0 <= i < |s|
        ensures TypesReturn(s, i) <==> EndsLine(s, i)
      {
        assert OrderlyAt(s, i);
        if i > 0 && s[i] == LF && s[i - 1] == CR {
          assert OrderlyAt(s, i - 1);
          SecondHalf(s, i);
        }
      }
    }
    if forall i :: 0 <= i < |s| ==> (TypesReturn(s, i) <==> EndsLine(s, i)) {
      forall i | 0 <= i < |s|
        ensures OrderlyAt(s, i)
      {
        assert TypesReturn(s, i) <==> EndsLine(s, i);
      }
    }
  }

  /** One Return for each CR LF, each CR and each LF, in every stream of bytes whatever: if and only if the stream is
      orderly. */
  lemma OneReturnIffOrderly(s: seq<byte>)
    ensures OneReturnEach(s) <==> Orderly(s)
  {
    hide FeedAll;
    hide Returns;
    hide LineCount;
    hide TypesReturn;
    hide EndsLine;
    hide Orderly;
    OrderlyMeans(s);
    if OneReturnEach(s) {
      forall i | 0 <= i < |s|
        ensures TypesReturn(s, i) <==> EndsLine(s, i)
      {
        CountsStep(s, i);
      }
    }
    if Orderly(s) {
      forall n | 0 <= n <= |s|
        ensures Returns(FeedAll(FRESH, s[..n]).keys) == LineCount(s[..n])
      {
        CountsAgree(s, n);
      }
    }
  }

  // ---- streams that are not ----

  /** Two line ends, one Return: an arrow key stands between the CR and a LF of its own. */
  lemma ReturnLost()
    ensures FeedAll(FRESH, [CR, ESC, 91, 65, LF]).keys == [RETURN, KeyFor(SCAN_UP, 0)]
  {
    hide FeedAll;
    var d1 := FRESH.(lastCr := true);
    var d2, d3 := d1.(esc := [ESC]), d1.(esc := [ESC, 91]);
    assert [CR, ESC, 91, 65, LF] == [CR] + ([ESC] + ([91] + ([65] + [LF])));
    FeedFirst(FRESH, CR, [ESC] + ([91] + ([65] + [LF])));
    FeedFirst(d1, ESC, [91] + ([65] + [LF]));
    assert [ESC] + [91] == [ESC, 91];
    FeedFirst(d2, 91, [65] + [LF]);
    FeedFirst(d3, 65, [LF]);
    assert Feed(d3, 65) == Step(d1, [KeyFor(SCAN_UP, 0)]);
    FeedOne(d1, LF);
  }

  /** The same across a character of two bytes. */
  lemma ReturnLostAcrossCharacter()
    ensures FeedAll(FRESH, [CR, 0xC3, 0xA9, LF]).keys == [RETURN, KeyFor(SCAN_NULL, 0xE9)]
  {
    hide FeedAll;
    var d1 := FRESH.(lastCr := true);
    assert [CR, 0xC3, 0xA9, LF] == [CR] + ([0xC3] + ([0xA9] + [LF]));
    FeedFirst(FRESH, CR, [0xC3] + ([0xA9] + [LF]));
    FeedFirst(d1, 0xC3, [0xA9] + [LF]);
    FeedFirst(d1.(acc := 3, need := 1), 0xA9, [LF]);
    FeedOne(d1.(acc := 0xE9), LF);
  }

  /** A line end inside a control sequence is part of it. */
  lemma ReturnInSequence(end: byte)
    requires end == CR || end == LF
    ensures FeedAll(FRESH, [ESC, 91, end, 65]).keys == [KeyFor(SCAN_UP, 0)]
  {
    hide FeedAll;
    assert [ESC, 91, end, 65] == [ESC, 91] + ([end] + [65]);
    ControlSequence(FRESH, [end], 65);
  }
}
