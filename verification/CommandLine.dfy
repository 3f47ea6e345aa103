/** The command line: split in place on blanks, honouring double quotes, by overwriting what ends each argument. */
module CommandLine {
  import opened Bytes

  const MAX_ARGS: nat := 24
  const QUOTE: uint16 := 34
  const SPACE: uint16 := 32
  const TAB: uint16 := 9

  type Text = seq<uint16>

  predicate Blank(c: uint16) {
    c == SPACE || c == TAB
  }

  // ---- what the arguments of a line are ----

  function SkipBlanks(s: Text): (r: Text)
    ensures |r| <= |s| && (r != [] ==> !Blank(r[0]))
    decreases |s|
  {
    if s != [] && Blank(s[0]) then SkipBlanks(s[1..]) else s
  }

  predicate Ends(quoted: bool, c: uint16) {
    if quoted then c == QUOTE else Blank(c)
  }

  /** How many characters come before the one that ends an argument. */
  function ArgLen(s: Text, quoted: bool): (n: nat)
    ensures n <= |s| && (n < |s| ==> Ends(quoted, s[n])) && forall i :: 0 <= i < n ==> !Ends(quoted, s[i])
    decreases |s|
  {
    if s == [] || Ends(quoted, s[0]) then 0 else 1 + ArgLen(s[1..], quoted)
  }

  /** What is left after an argument and the one character that ends it. */
  function AfterArg(s: Text, n: nat): (r: Text)
    requires n <= |s|
    ensures |r| <= |s| && (n > 0 || s != [] ==> |r| < |s|)
  {
    if n < |s| then s[n + 1..] else []
  }

  /** The first `max` arguments. */
  function Arguments(s: Text, max: nat): (args: seq<Text>)
    ensures |args| <= max
    decreases |s|
  {
    var t := SkipBlanks(s);
    if max == 0 || t == [] then []
    else
      var quoted := t[0] == QUOTE;
      var body := if quoted then t[1..] else t;
      var n := ArgLen(body, quoted);
      [body[..n]] + Arguments(AfterArg(body, n), max - 1)
  }

  // ---- the in-place tokenizer ----

  /** A C string in the buffer. */
  ghost predicate StringAt(buf: array<uint16>, at: nat, s: Text)
    reads buf
  {
    && at + |s| < buf.Length && buf[at + |s|] == 0
    && forall k :: 0 <= k < |s| ==> buf[at + k] == s[k] && s[k] != 0
  }

  lemma Tail(buf: array<uint16>, at: nat, s: Text, n: nat)
    requires StringAt(buf, at, s) && n <= |s|
    ensures StringAt(buf, at + n, s[n..])
  {
    forall k | 0 <= k < |s| - n
      ensures buf[at + n + k] == s[n..][k] && s[n..][k] != 0
    {
      assert s[n..][k] == s[n + k];
    }
  }

  method PassBlanks(buf: array<uint16>, from: nat, ghost s: Text) returns (p: nat)
    requires StringAt(buf, from, s)
    ensures from <= p && StringAt(buf, p, SkipBlanks(s))
  {
    p := from;
    ghost var t := s;
    while Blank(buf[p])
      invariant from <= p && StringAt(buf, p, t) && SkipBlanks(t) == SkipBlanks(s)
      decreases |t|
    {
      assert t != [] && buf[p + 0] == t[0];
      Tail(buf, p, t, 1);
      t := t[1..];
      p := p + 1;
    }
    assert t != [] ==> buf[p + 0] == t[0];
  }

  /** The end of the argument that starts at an index. */
  method FindEnd(buf: array<uint16>, from: nat, quoted: bool, ghost s: Text) returns (p: nat)
    requires StringAt(buf, from, s)
    ensures p == from + ArgLen(s, quoted)
  {
    p := from;
    ghost var t := s;
    while buf[p] != 0 && !Ends(quoted, buf[p])
      invariant from <= p && StringAt(buf, p, t) && p + ArgLen(t, quoted) == from + ArgLen(s, quoted)
      decreases |t|
    {
      assert t != [] && buf[p + 0] == t[0];
      Tail(buf, p, t, 1);
      t := t[1..];
      p := p + 1;
    }
    assert t != [] ==> buf[p + 0] == t[0];
  }

  function Body(t: Text): Text
    requires t != []
  {
    if t[0] == QUOTE then t[1..] else t
  }

  function FirstLen(t: Text): (n: nat)
    requires t != []
    ensures n <= |Body(t)|
  {
    ArgLen(Body(t), t[0] == QUOTE)
  }

  /** One argument: where it starts, and where the line goes on. What ends it becomes its NUL. */
  method TakeArgument(buf: array<uint16>, from: nat, ghost t: Text) returns (at: nat, p: nat)
    requires StringAt(buf, from, t) && t != []
    modifies buf
    ensures from <= at && StringAt(buf, at, Body(t)[..FirstLen(t)])
    ensures StringAt(buf, p, AfterArg(Body(t), FirstLen(t)))
    ensures at + FirstLen(t) < p || (at + FirstLen(t) == p && AfterArg(Body(t), FirstLen(t)) == [])
    ensures forall i :: 0 <= i < at ==> buf[i] == old(buf[i])
    ensures |AfterArg(Body(t), FirstLen(t))| < |t|
  {
    assert buf[from + 0] == t[0];
    at := from;
    ghost var b := t;
    var quoted := buf[from] == QUOTE;
    if quoted {
      Tail(buf, from, t, 1);
      b := t[1..];
      at := from + 1;
    }
    p := FindEnd(buf, at, quoted, b);
    p := Terminate(buf, at, p - at, b);
  }

  /** A NUL in place of what ends the argument; the rest of the line stays as it is. */
  method Terminate(buf: array<uint16>, at: nat, n: nat, ghost b: Text) returns (p: nat)
    requires StringAt(buf, at, b) && n <= |b|
    modifies buf
    ensures StringAt(buf, at, b[..n]) && StringAt(buf, p, AfterArg(b, n))
    ensures at + n < p || (at + n == p && AfterArg(b, n) == [])
    ensures forall i :: 0 <= i < at ==> buf[i] == old(buf[i])
  {
    p := at + n;
    assert n < |b| ==> buf[at + n] == b[n] && b[n] != 0;
    if buf[p] != 0 {
      ghost var tail := b[n + 1..];
      Tail(buf, at, b, n + 1);
      assert forall k :: 0 <= k < |tail| ==> buf[at + (n + 1) + k] == tail[k] && tail[k] != 0;
      buf[p] := 0;
      p := p + 1;
      assert forall k :: 0 <= k < |tail| ==> buf[p + k] == tail[k] && tail[k] != 0;
    }
  }

  lemma ArgumentsStep(s: Text, max: nat)
    ensures var t := SkipBlanks(s);
      Arguments(s, max) == if max == 0 || t == [] then []
        else [Body(t)[..FirstLen(t)]] + Arguments(AfterArg(Body(t), FirstLen(t)), max - 1)
  {
  }

  /** What has been found so far, each a C string that ends before the rest of the line. */
  ghost predicate Found(buf: array<uint16>, argv: seq<nat>, done: seq<Text>, p: nat, rest: Text)
    reads buf
  {
    |argv| == |done| && forall i :: 0 <= i < |done| ==>
      StringAt(buf, argv[i], done[i]) && (argv[i] + |done[i]| < p || (argv[i] + |done[i]| == p && rest == []))
  }

  /** One argument more, which leaves those already found alone. */
  method NextArgument(buf: array<uint16>, argv: seq<nat>, p: nat, ghost done: seq<Text>, ghost t: Text)
    returns (more: seq<nat>, next: nat)
    requires StringAt(buf, p, t) && t != [] && Found(buf, argv, done, p, t)
    modifies buf
    ensures |more| == |argv| + 1 && StringAt(buf, next, AfterArg(Body(t), FirstLen(t)))
    ensures Found(buf, more, done + [Body(t)[..FirstLen(t)]], next, AfterArg(Body(t), FirstLen(t)))
    ensures |AfterArg(Body(t), FirstLen(t))| < |t|
  {
    hide FirstLen;
    hide Body;
    hide AfterArg;
    var at;
    at, next := TakeArgument(buf, p, t);
    more := argv + [at];
  }

  /** At most 24 arguments, each a C string of its own in the buffer, are exactly the arguments of the line. */
  method Tokenize(buf: array<uint16>, ghost line: Text) returns (argv: seq<nat>)
    requires StringAt(buf, 0, line)
    modifies buf
    ensures |argv| == |Arguments(line, 24)| <= 24
    ensures forall i :: 0 <= i < |argv| ==> StringAt(buf, argv[i], Arguments(line, 24)[i])
  {
    hide Arguments;
    hide SkipBlanks;
    hide Body;
    hide FirstLen;
    hide AfterArg;
    argv := [];
    var p: nat := 0;
    ghost var rest, done: seq<Text> := line, [];
    assert done + Arguments(line, MAX_ARGS) == Arguments(line, MAX_ARGS);
    while buf[p] != 0 && |argv| < MAX_ARGS
      invariant StringAt(buf, p, rest) && |done| <= MAX_ARGS && Found(buf, argv, done, p, rest)
      invariant Arguments(line, MAX_ARGS) == done + Arguments(rest, MAX_ARGS - |done|)
      decreases |rest|
    {
      ArgumentsStep(rest, MAX_ARGS - |done|);
      p := PassBlanks(buf, p, rest);
      ghost var t := SkipBlanks(rest);
      assert t != [] ==> buf[p + 0] == t[0];
      if buf[p] == 0 {
        rest := [];
        break;
      }
      argv, p := NextArgument(buf, argv, p, done, t);
      ghost var arg := Body(t)[..FirstLen(t)];
      Associates(done, [arg], Arguments(AfterArg(Body(t), FirstLen(t)), MAX_ARGS - |done| - 1));
      done := done + [arg];
      rest := AfterArg(Body(t), FirstLen(t));
    }
    assert rest != [] ==> buf[p + 0] == rest[0];
    assert |SkipBlanks(rest)| <= |rest|;
    ArgumentsStep(rest, MAX_ARGS - |done|);
    assert done + [] == done;
  }

  // ---- quoting ----

  function Quoted(a: Text): Text {
    [QUOTE] + (a + [QUOTE])
  }

  /** A line made of arguments in quotes, one blank between them. */
  function Line(args: seq<Text>): Text {
    if args == [] then []
    else if |args| == 1 then Quoted(args[0])
    else Quoted(args[0]) + ([SPACE] + Line(args[1..]))
  }

  /** What follows the first argument's closing quote. */
  function Following(args: seq<Text>): Text
    requires args != []
  {
    if |args| == 1 then [] else [SPACE] + Line(args[1..])
  }

  lemma LineShape(args: seq<Text>)
    requires args != []
    ensures Line(args) == [QUOTE] + (args[0] + ([QUOTE] + Following(args)))
  {
    assert Quoted(args[0]) + Following(args) == [QUOTE] + (args[0] + ([QUOTE] + Following(args)));
    assert |args| == 1 ==> Quoted(args[0]) + [] == Quoted(args[0]);
  }

  lemma BlankSkipped(s: Text, max: nat)
    ensures Arguments([SPACE] + s, max) == Arguments(s, max)
  {
    hide Arguments;
    assert ([SPACE] + s)[1..] == s;
    ArgumentsStep([SPACE] + s, max);
    ArgumentsStep(s, max);
  }

  lemma NoArguments(max: nat)
    ensures Arguments([], max) == []
  {
  }

  lemma FollowingArguments(args: seq<Text>, max: nat)
    requires args != []
    ensures Arguments(Following(args), max) == Arguments(Line(args[1..]), max)
  {
    hide Arguments;
    if |args| == 1 {
      NoArguments(max);
      assert Line(args[1..]) == [];
    } else {
      BlankSkipped(Line(args[1..]), max);
    }
  }

  /** Where the first quoted argument ends. */
  lemma FirstEnd(a: Text, rest: Text)
    ensures var b := a + ([QUOTE] + rest);
      var n := ArgLen(b, true);
      && n <= |a| && (n == |a| <==> QUOTE !in a)
      && (n == |a| ==> b[..n] == a && AfterArg(b, n) == rest)
  {
    var b := a + ([QUOTE] + rest);
    var n := ArgLen(b, true);
    assert b[|a|] == QUOTE && forall i :: 0 <= i < |a| ==> b[i] == a[i];
    assert n < |a| ==> a[n] == QUOTE;
    assert n == |a| ==> b[n + 1..] == rest;
  }

  lemma QuotedStep(a: Text, rest: Text, max: nat)
    requires max > 0
    ensures var b := a + ([QUOTE] + rest);
      var n := ArgLen(b, true);
      Arguments([QUOTE] + b, max) == [b[..n]] + Arguments(AfterArg(b, n), max - 1)
  {
    hide Arguments;
    var b := a + ([QUOTE] + rest);
    ArgumentsStep([QUOTE] + b, max);
    assert ([QUOTE] + b)[1..] == b;
  }

  /** The first argument of a quoted line is what stands before the first quote in it. */
  lemma FirstArgument(args: seq<Text>, max: nat)
    requires args != [] && max > 0
    ensures var got := Arguments(Line(args), max);
      got != [] && (got[0] == args[0] <==> QUOTE !in args[0])
    ensures QUOTE !in args[0] ==> Arguments(Line(args), max) == [args[0]] + Arguments(Line(args[1..]), max - 1)
  {
    hide Arguments;
    hide Line;
    hide Following;
    hide ArgLen;
    hide AfterArg;
    LineShape(args);
    QuotedStep(args[0], Following(args), max);
    FirstEnd(args[0], Following(args));
    FollowingArguments(args, max - 1);
  }

  /** Quoting is undone, empty arguments included, if and only if no argument holds a quote itself; a line of more than
      24 arguments loses those past the 24th and nothing else. */
  lemma {:induction false} QuotingUndone(args: seq<Text>, max: nat)
    ensures Arguments(Line(args), max) == FirstFew(args, max)
      <==> forall i :: 0 <= i < |args| && i < max ==> QUOTE !in args[i]
    decreases |args|
  {
    hide Arguments;
    hide Line;
    if args == [] {
      NoArguments(max);
      NoLine();
    } else if max == 0 {
      ArgumentsStep(Line(args), 0);
    } else {
      hide FirstFew;
      FirstArgument(args, max);
      QuotingUndone(args[1..], max - 1);
      FewStep(args, max);
      QuotesStep(args, max);
      if QUOTE !in args[0] {
        SameRest(args[0], Arguments(Line(args[1..]), max - 1), FirstFew(args[1..], max - 1));
      }
    }
  }

  function FirstFew(args: seq<Text>, max: nat): seq<Text> {
    if |args| <= max then args else args[..max]
  }

  lemma FewStep(args: seq<Text>, max: nat)
    requires args != [] && max > 0
    ensures FirstFew(args, max) == [args[0]] + FirstFew(args[1..], max - 1)
    ensures FirstFew(args, max) != [] && FirstFew(args, max)[0] == args[0]
  {
  }

  lemma QuotesStep(args: seq<Text>, max: nat)
    requires args != [] && max > 0
    ensures var tail := args[1..];
      (forall i :: 0 <= i < |args| && i < max ==> QUOTE !in args[i]) <==>
      QUOTE !in args[0] && forall i :: 0 <= i < |tail| && i < max - 1 ==> QUOTE !in tail[i]
  {
    var tail := args[1..];
    assert forall i :: 0 <= i < |tail| ==> tail[i] == args[i + 1];
    assert forall i :: 0 < i < |args| ==> args[i] == tail[i - 1];
  }

  lemma SameRest(first: Text, a: seq<Text>, b: seq<Text>)
    ensures [first] + a == [first] + b <==> a == b
  {
    assert ([first] + a)[1..] == a && ([first] + b)[1..] == b;
  }

  lemma NoLine()
    ensures Line([]) == []
  {
  }

  // ---- lines without quotes ----

  /** A word and the blanks behind it. */
  datatype Word = Word(text: Text, gap: Text)

  predicate AllBlank(s: Text) {
    forall i :: 0 <= i < |s| ==> s[i] == 32 || s[i] == 9
  }

  predicate IsWord(s: Text) {
    s != [] && 32 !in s && 9 !in s
  }

  /** Words of a line: only the last may have nothing behind it. */
  predicate Spaced(words: seq<Word>) {
    forall i :: 0 <= i < |words| ==>
      IsWord(words[i].text) && AllBlank(words[i].gap) && (i < |words| - 1 ==> words[i].gap != [])
  }

  function Written(words: seq<Word>): Text {
    if words == [] then [] else words[0].text + (words[0].gap + Written(words[1..]))
  }

  function Texts(words: seq<Word>): (t: seq<Text>)
    ensures |t| == |words|
  {
    seq(|words|, i requires 0 <= i < |words| => words[i].text)
  }

  lemma {:induction false} BlanksSkipped(gap: Text, s: Text, max: nat)
    requires AllBlank(gap)
    ensures Arguments(gap + s, max) == Arguments(s, max)
    decreases |gap|
  {
    hide Arguments;
    if gap == [] {
      assert gap + s == s;
    } else {
      var rest := gap[1..] + s;
      assert (gap + s)[0] == gap[0] && (gap + s)[1..] == rest;
      ArgumentsStep(gap + s, max);
      ArgumentsStep(rest, max);
      BlanksSkipped(gap[1..], s, max);
    }
  }

  /** An argument without a quote in front ends at the first blank. */
  lemma WordEnds(w: Text, after: Text)
    requires IsWord(w) && w[0] != 34 && (after != [] ==> Blank(after[0]))
    ensures SkipBlanks(w + after) == w + after && Body(w + after) == w + after && FirstLen(w + after) == |w|
    ensures AfterArg(w + after, |w|) == if after == [] then [] else after[1..]
  {
    var t := w + after;
    assert forall i :: 0 <= i < |w| ==> t[i] == w[i] && w[i] in w;
    assert after != [] ==> t[|w|] == after[0];
  }

  lemma FirstWord(word: Word, rest: Text, max: nat)
    requires max > 0 && IsWord(word.text) && AllBlank(word.gap) && (word.gap == [] ==> rest == []) && word.text[0] != 34
    ensures Arguments(word.text + (word.gap + rest), max) == [word.text] + Arguments(rest, max - 1)
  {
    hide Arguments;
    hide Body;
    hide FirstLen;
    hide SkipBlanks;
    hide AfterArg;
    var (w, after) := (word.text, word.gap + rest);
    ArgumentsStep(w + after, max);
    WordEnds(w, after);
    assert (w + after)[..|w|] == w;
    if after == [] {
      assert rest == [];
    } else {
      assert after[1..] == word.gap[1..] + rest;
      BlanksSkipped(word.gap[1..], rest, max - 1);
    }
  }

  /** One with a quote in front loses it. */
  lemma QuoteLost(w: Text, after: Text, max: nat)
    requires max > 0 && IsWord(w) && w[0] == 34
    ensures var got := Arguments(w + after, max);
      got != [] && got[0] != w
  {
    hide Arguments;
    var t := w + after;
    assert t[0] == w[0] && w[0] in w;
    ArgumentsStep(t, max);
    assert forall i :: 0 <= i < FirstLen(t) ==> Body(t)[i] != QUOTE;
  }

  /** However many blanks stand before, between and behind the words of a line, its arguments are the words, up to the 24th, if
      and only if none of these begins with a quote. */
  lemma {:induction false} PlainWords(gap: Text, words: seq<Word>, max: nat)
    requires AllBlank(gap) && Spaced(words)
    ensures Arguments(gap + Written(words), max) == FirstFew(Texts(words), max)
      <==> forall i :: 0 <= i < |words| && i < max ==> words[i].text[0] != 34
    decreases |words|
  {
    hide Arguments;
    hide Written;
    hide FirstFew;
    BlanksSkipped(gap, Written(words), max);
    if words == [] || max == 0 {
      NothingWritten(words, max);
    } else {
      var tail := words[1..];
      WordsStep(words, max);
      if words[0].text[0] == 34 {
        QuoteLost(words[0].text, words[0].gap + Written(tail), max);
      } else {
        FirstWord(words[0], Written(tail), max);
        PlainWords([], tail, max - 1);
        assert [] + Written(tail) == Written(tail);
        SameRest(words[0].text, Arguments(Written(tail), max - 1), FirstFew(Texts(tail), max - 1));
      }
    }
  }

  lemma NothingWritten(words: seq<Word>, max: nat)
    requires words == [] || max == 0
    ensures Arguments(Written(words), max) == [] && FirstFew(Texts(words), max) == []
  {
  }

  lemma WordsStep(words: seq<Word>, max: nat)
    requires Spaced(words) && words != [] && max > 0
    ensures Spaced(words[1..]) && (words[0].gap == [] ==> Written(words[1..]) == [])
    ensures Written(words) == words[0].text + (words[0].gap + Written(words[1..]))
    ensures FirstFew(Texts(words), max) == [words[0].text] + FirstFew(Texts(words[1..]), max - 1)
    ensures FirstFew(Texts(words), max) != [] && FirstFew(Texts(words), max)[0] == words[0].text
    ensures (forall i :: 0 <= i < |words| && i < max ==> words[i].text[0] != 34) <==>
      words[0].text[0] != 34 && forall i :: 0 <= i < |words[1..]| && i < max - 1 ==> words[1..][i].text[0] != 34
  {
    var tail := words[1..];
    assert forall i :: 0 <= i < |tail| ==> tail[i] == words[i + 1];
    assert forall i :: 0 < i < |words| ==> words[i] == tail[i - 1];
    assert Texts(words)[1..] == Texts(tail);
    FewStep(Texts(words), max);
  }
}
