/** The input half of the console shim as the source keeps it: a 24-byte escape buffer, a character in progress and a ring
    of 256 keys, updated byte by byte. */
module ConsoleKeys {
  import opened Bytes
  import opened ConsoleInput

  type KeyAt = n: nat | n < KEY_RING
  type EscLen = n: nat | n <= ESC_BUF

  const READ_BUF: nat := 256
  const EXIT_KEYS: seq<Key> :=
    [Key(0, 'e' as uint16, false), Key(0, 'x' as uint16, false), Key(0, 'i' as uint16, false), Key(0, 't' as uint16, false), Key(0, 13, false)]

  /** What the channel has for the shim at each look: bytes, nothing yet, or no channel any more. */
  datatype Look = Data(d: seq<byte>) | Nothing | Gone

  function Size(looks: seq<Look>): nat {
    if looks == [] then 0 else 1 + (if looks[0].Data? then |looks[0].d| else 0) + Size(looks[1..])
  }

  /** The bytes that some looks bring. */
  function BytesOf(looks: seq<Look>): seq<byte>
    decreases |looks|
  {
    if looks == [] then [] else (if looks[0].Data? then looks[0].d else []) + BytesOf(looks[1..])
  }

  /** What is to be had at once, what is left for later, and whether the client turns out to be gone: it goes on only after
      a look that filled the last of its reads. */
  function Ready(looks: seq<Look>): (seq<byte>, seq<Look>, bool)
    decreases |looks|
  {
    if looks == [] then ([], [], false)
    else
      match looks[0]
      case Gone => ([], looks[1..], true)
      case Nothing => ([], looks[1..], false)
      case Data(d) =>
        if |d| > 0 && |d| % READ_BUF == 0 then
          var (more, later, gone) := Ready(looks[1..]);
          (d + more, later, gone)
        else (d, looks[1..], false)
  }

  /** Nothing is lost between now and later. */
  lemma {:induction false} ReadyConserves(looks: seq<Look>)
    ensures Ready(looks).0 + BytesOf(Ready(looks).1) == BytesOf(looks)
    decreases |looks|
  {
    if looks != [] && looks[0].Data? {
      ReadyConserves(looks[1..]);
      Associates(looks[0].d, Ready(looks[1..]).0, BytesOf(Ready(looks[1..]).1));
    }
  }

  /** One read's worth off the front. */
  lemma ReadySplit(d: seq<byte>, rest: seq<Look>)
    requires |d| > READ_BUF
    ensures var (more, later, gone) := Ready([Data(d[READ_BUF..])] + rest);
      Ready([Data(d)] + rest) == (d[..READ_BUF] + more, later, gone)
  {
    var tail := d[READ_BUF..];
    assert d == d[..READ_BUF] + tail && |tail| % READ_BUF == |d| % READ_BUF;
    assert ([Data(d)] + rest)[1..] == rest && ([Data(tail)] + rest)[1..] == rest;
    Associates(d[..READ_BUF], tail, Ready(rest).0);
  }

  class Input {
    const keys: array<Key>
    var keyHead: KeyAt
    var keyTail: KeyAt
    ghost var held: seq<Key>

    const esc: array<byte>
    var escLen: EscLen
    var utf8Acc: uint32
    var utf8Need: nat
    var lastWasCr: bool

    var disconnected: bool
    var exitInjects: nat
    var looks: seq<Look>

    ghost predicate Shape() {
      keys.Length == KEY_RING && esc.Length == ESC_BUF
    }

    /** The ring holds `held`, the next key to be read first. */
    ghost predicate RingOk()
      requires Shape()
      reads `keyHead, `keyTail, `held, keys
    {
      held == if keyTail <= keyHead then keys[keyTail..keyHead] else keys[keyTail..] + keys[..keyHead]
    }

    ghost function State(): Dec
      requires Shape()
      reads `escLen, `utf8Acc, `utf8Need, `lastWasCr, esc
    {
      Dec(esc[..escLen], utf8Acc, utf8Need, lastWasCr)
    }

    ghost predicate Valid()
      reads `keyHead, `keyTail, `held, `escLen, `utf8Acc, `utf8Need, `lastWasCr, keys, esc
      ensures Valid() ==> Shape()
    {
      Shape() && RingOk() && DecOk(State())
    }

    constructor (looks: seq<Look>)
      ensures Valid() && held == [] && State() == FRESH && !disconnected && exitInjects == 0 && this.looks == looks
      ensures fresh(keys) && fresh(esc)
    {
      keys, keyHead, keyTail, held := new Key[KEY_RING], 0, 0, [];
      esc, escLen := new byte[ESC_BUF], 0;
      utf8Acc, utf8Need, lastWasCr := 0, 0, false;
      disconnected, exitInjects := false, 0;
      this.looks := looks;
    }

    // ---- the ring ----

    method PushKeyData(k: Key)
      requires Shape() && RingOk()
      modifies `keyHead, `held, keys
      ensures RingOk() && held == Store(old(held), k)
    {
      var next := (keyHead + 1) % KEY_RING;
      if next == keyTail {
        return;
      }
      ghost var was := keys[..];
      keys[keyHead] := k;
      assert forall i :: 0 <= i < KEY_RING && i != keyHead ==> keys[i] == was[i];
      keyHead := next;
      held := held + [k];
    }

    method PushKey(scan: uint16, ch: uint16)
      requires Shape() && RingOk()
      modifies `keyHead, `held, keys
      ensures RingOk() && held == StoreAll(old(held), [KeyFor(scan, ch)])
    {
      hide RingOk;
      var k := Key(scan, ch, false);
      if scan == SCAN_NULL && ch >= 1 && ch <= 26 && ch != 8 && ch != 9 && ch != 10 && ch != 13 {
        k := k.(ctrl := true);
      }
      PushKeyData(k);
      assert [k][1..] == [];
    }

    method PopKey() returns (found: bool, k: Key)
      requires Shape() && RingOk()
      modifies `keyTail, `held
      ensures RingOk() && found == (old(held) != [])
      ensures found ==> k == old(held)[0] && held == old(held)[1..]
      ensures !found ==> held == old(held)
    {
      k := keys[keyTail];
      if keyHead == keyTail {
        return false, k;
      }
      keyTail := (keyTail + 1) % KEY_RING;
      held := held[1..];
      found := true;
    }

    method Empty() returns (e: bool)
      requires Shape() && RingOk()
      ensures e == (held == [])
    {
      e := keyHead == keyTail;
    }

    /** Types "exit" for a shell whose client is gone, unless it has something to read already or has had enough. */
    method InjectExit()
      requires Shape() && RingOk()
      modifies `keyHead, `held, `exitInjects, keys
      ensures RingOk() && exitInjects <= (if old(exitInjects) > 40 then old(exitInjects) else 40)
      ensures if old(held) == [] && old(exitInjects) < 40
        then held == EXIT_KEYS && exitInjects == old(exitInjects) + 1
        else held == old(held) && exitInjects == old(exitInjects)
    {
      hide RingOk;
      var e := Empty();
      if !e || exitInjects >= EXIT_INJECT_MAX {
        return;
      }
      exitInjects := exitInjects + 1;
      PushKey(SCAN_NULL, 101);
      PushKey(SCAN_NULL, 120);
      PushKey(SCAN_NULL, 105);
      PushKey(SCAN_NULL, 116);
      PushKey(SCAN_NULL, 13);
    }

    // ---- the decoder ----

    /** The decimal number from the third byte of the buffer on. */
    method CsiNumber() returns (num: nat)
      requires Shape() && escLen >= 3
      ensures num == Number(esc[2..escLen - 1], 0)
    {
      num := 0;
      var i := 2;
      while i < escLen - 1 && IsDigit(esc[i])
        invariant 2 <= i <= escLen - 1
        invariant Number(esc[2..escLen - 1], 0) == Number(esc[i..escLen - 1], num)
      {
        assert esc[i..escLen - 1][0] == esc[i] && esc[i..escLen - 1][1..] == esc[i + 1..escLen - 1];
        num := (num * 10 + (esc[i] - 48)) % TWO64;
        i := i + 1;
      }
      assert i < escLen - 1 ==> esc[i..escLen - 1][0] == esc[i];
    }

    method HandleCsi()
      requires Shape() && RingOk() && escLen >= 3
      modifies `keyHead, `held, keys
      ensures RingOk() && held == StoreAll(old(held), CsiKeys(esc[2..escLen - 1], esc[escLen - 1]))
    {
      hide RingOk;
      var final := esc[escLen - 1];
      var num := CsiNumber();
      var scan := if final == 126 then TildeScan(num) else LetterScan(final);
      if scan != SCAN_NULL {
        PushKey(scan, 0);
      }
    }

    method HandleSs3(b: byte)
      requires Shape() && RingOk()
      modifies `keyHead, `held, keys
      ensures RingOk() && held == StoreAll(old(held), ScanKeys(LetterScan(b)))
    {
      hide RingOk;
      var scan := LetterScan(b);
      if scan != SCAN_NULL {
        PushKey(scan, 0);
      }
    }

    method FeedText(b: byte)
      requires Valid() && escLen == 0
      modifies `keyHead, `held, `escLen, `utf8Acc, `utf8Need, `lastWasCr, keys, esc
      ensures Valid() && State() == InText(old(State()), b).d
      ensures held == StoreAll(old(held), InText(old(State()), b).keys)
    {
      hide RingOk;
      TextOk(State(), b);
      if b == ESC {
        esc[0] := b;
        escLen := 1;
        assert esc[..1] == [ESC];
        return;
      }
      if utf8Need > 0 {
        if 0x80 <= b < 0xC0 {
          utf8Acc := utf8Acc * 64 % TWO32 + b % 64;
          utf8Need := utf8Need - 1;
          if utf8Need == 0 && utf8Acc <= 0xFFFF {
            PushKey(SCAN_NULL, utf8Acc);
          }
          return;
        }
        utf8Need := 0;
      }
      FeedGround(b);
    }

    method FeedGround(b: byte)
      requires Shape() && RingOk() && utf8Need == 0
      modifies `keyHead, `held, `utf8Acc, `utf8Need, `lastWasCr, keys
      ensures RingOk() && State() == InGround(old(State()), b).d
      ensures held == StoreAll(old(held), InGround(old(State()), b).keys)
    {
      hide RingOk;
      if b >= 0xF0 {
        utf8Acc, utf8Need := b % 8, 3;
      } else if b >= 0xE0 {
        utf8Acc, utf8Need := b % 0x10, 2;
      } else if b >= 0xC0 {
        utf8Acc, utf8Need := b % 0x20, 1;
      } else if b == CR {
        lastWasCr := true;
        PushKey(SCAN_NULL, CR);
      } else if b == LF {
        if lastWasCr {
          lastWasCr := false;
        } else {
          PushKey(SCAN_NULL, CR);
        }
      } else {
        lastWasCr := false;
        PushKey(SCAN_NULL, if b == 0x7F || b == 8 then 8 else b);
      }
    }

    /** An ESC that starts no sequence is a key, and the byte after it is fed again. */
    method FeedByte(b: byte)
      requires Valid()
      modifies `keyHead, `held, `escLen, `utf8Acc, `utf8Need, `lastWasCr, keys, esc
      ensures Valid() && State() == Feed(old(State()), b).d
      ensures held == StoreAll(old(held), Feed(old(State()), b).keys)
      decreases if escLen > 0 then 1 else 0
    {
      hide RingOk;
      hide InText;
      hide DecOk;
      if escLen == 0 {
        FeedText(b);
        return;
      }
      ghost var d := State();
      DecOkBounds(d);
      DecOkEsc(d);
      FeedOk(d, b);
      KeepByte(b);
      if escLen == 2 {
        if b == 91 || b == 79 {
          return;
        }
        escLen := 0;
        PushKey(SCAN_ESC, 0);
        ghost var before := held;
        assert State() == d.(esc := []);
        FeedByte(b);
        StoreAllAppend(old(held), [ESCAPE], InText(d.(esc := []), b).keys);
        return;
      }
      FeedLong(b, d);
    }

    method KeepByte(b: byte)
      requires Shape() && escLen < ESC_BUF
      modifies `escLen, esc
      ensures State() == old(State()).(esc := old(State()).esc + [b])
    {
      ghost var was := esc[..escLen];
      esc[escLen] := b;
      escLen := escLen + 1;
      assert esc[..escLen] == was + [b];
    }

    /** The third byte of a sequence or a later one; it is in the buffer already. */
    method FeedLong(b: byte, ghost d: Dec)
      requires Shape() && RingOk() && DecOk(d) && |d.esc| >= 2 && State() == d.(esc := d.esc + [b])
      requires DecOk(InEscape(d, b).d)
      modifies `keyHead, `held, `escLen, keys
      ensures RingOk() && State() == InEscape(d, b).d
      ensures held == StoreAll(old(held), InEscape(d, b).keys)
    {
      hide RingOk;
      assert esc[..escLen][1] == esc[1] && (d.esc + [b])[1] == d.esc[1];
      if esc[1] == 79 {
        escLen := 0;
        HandleSs3(b);
        return;
      }
      if 0x40 <= b <= 0x7E {
        assert esc[2..escLen - 1] == esc[..escLen][2..escLen - 1] && esc[escLen - 1] == esc[..escLen][escLen - 1];
        HandleCsi();
        escLen := 0;
        return;
      }
      if escLen >= ESC_BUF {
        escLen := 0;
      }
    }

    method FeedBytes(d: seq<byte>)
      requires Valid()
      modifies `keyHead, `held, `escLen, `utf8Acc, `utf8Need, `lastWasCr, keys, esc
      ensures Valid() && State() == FeedAll(old(State()), d).d
      ensures held == StoreAll(old(held), FeedAll(old(State()), d).keys)
    {
      hide Valid;
      hide Feed;
      ghost var start := State();
      var i := 0;
      while i < |d|
        invariant Valid() && i <= |d|
        invariant FeedAll(State(), d[i..]).d == FeedAll(start, d).d
        invariant StoreAll(held, FeedAll(State(), d[i..]).keys) == StoreAll(old(held), FeedAll(start, d).keys)
      {
        ghost var before, was := State(), held;
        assert d[i..][0] == d[i] && d[i..][1..] == d[i + 1..];
        FeedByte(d[i]);
        StoreAllAppend(was, Feed(before, d[i]).keys, FeedAll(State(), d[i + 1..]).keys);
        i := i + 1;
      }
    }

    /** Nothing more came: the ESC key, then what was held back, as if it were typed now. */
    method FlushEsc()
      requires Valid() && escLen > 0
      modifies `keyHead, `held, `escLen, `utf8Acc, `utf8Need, `lastWasCr, keys, esc
      ensures Valid() && State() == Flush(old(State())).d
      ensures held == StoreAll(old(held), Flush(old(State())).keys)
    {
      hide RingOk;
      hide DecOk;
      hide FeedAll;
      ghost var d := State();
      var saved := esc[1..escLen];
      assert saved == d.esc[1..];
      DecOkEsc(d);
      escLen := 0;
      PushKey(SCAN_ESC, 0);
      assert State() == d.(esc := []);
      FeedBytes(saved);
      StoreAllAppend(old(held), [ESCAPE], FeedAll(d.(esc := []), saved).keys);
    }

    /** ShimInReset: forgets keys and sequences, keeps the memory of a carriage return. */
    method Reset()
      requires Valid()
      modifies `keyHead, `keyTail, `held, `escLen, `utf8Need
      ensures Valid() && held == [] && State() == old(State()).(esc := [], need := 0)
    {
      keyHead, keyTail, held := 0, 0, [];
      escLen, utf8Need := 0, 0;
    }

    // ---- reading the channel ----

    /** One SshRead into a buffer of 256 bytes: -1 once the client is gone. */
    method ReadChannel() returns (n: int, d: seq<byte>)
      modifies `looks
      ensures -1 <= n <= READ_BUF && |d| == (if n < 0 then 0 else n)
      ensures Size(looks) <= Size(old(looks)) && (n > 0 ==> Size(looks) < Size(old(looks)))
      ensures Ready(old(looks)) ==
        if n < READ_BUF then (d, looks, n < 0) else (d + Ready(looks).0, Ready(looks).1, Ready(looks).2)
    {
      n, d := 0, [];
      if looks == [] {
        return;
      }
      var first, rest := looks[0], looks[1..];
      assert looks == [first] + rest;
      looks := rest;
      match first
      case Gone => n := -1;
      case Nothing =>
      case Data(all) =>
        d := if |all| <= READ_BUF then all else all[..READ_BUF];
        n := |d|;
        if READ_BUF < |all| {
          ReadySplit(all, rest);
          looks := [Data(all[READ_BUF..])] + rest;
          assert looks[1..] == rest;
        }
    }

    /** Everything the channel has now goes through the decoder once and in order, however it is cut up, and what it does
        not have yet is left for later; when the client turns out to be gone, "exit" is typed for it; and an escape sequence
        that has waited too long is given up. */
    method PumpInput() returns (ghost got: seq<byte>, ghost gaveUp: bool)
      requires Valid()
      modifies this, keys, esc
      ensures Valid()
      ensures if old(disconnected) then disconnected && got == [] && looks == old(looks)
        else (got, looks, disconnected) == Ready(old(looks))
      ensures got + BytesOf(looks) == BytesOf(old(looks))
      ensures gaveUp ==> !disconnected && FeedAll(old(State()), got).d.esc != []
      ensures State() == Pumped(old(State()), got, gaveUp).d
      ensures !disconnected ==> held == StoreAll(old(held), Pumped(old(State()), got, gaveUp).keys)
      ensures disconnected ==> held == Exited(StoreAll(old(held), Pumped(old(State()), got, gaveUp).keys), old(exitInjects))
    {
      hide Valid;
      hide Flush;
      hide Ready;
      hide BytesOf;
      ReadyConserves(looks);
      gaveUp := false;
      if disconnected {
        got := [];
        FeedNothing(State());
        assert [] + BytesOf(looks) == BytesOf(looks);
        Inject();
        return;
      }
      got := ReadAll();
      if disconnected {
        Inject();
        return;
      }
      var late: bool := *;
      if escLen > 0 && late {
        gaveUp := true;
        StoreAllAppend(old(held), FeedAll(old(State()), got).keys, Flush(State()).keys);
        FlushEsc();
      }
    }

    /** The read loop. */
    method ReadAll() returns (ghost got: seq<byte>)
      requires Valid() && !disconnected
      modifies `looks, `disconnected, `keyHead, `held, `escLen, `utf8Acc, `utf8Need, `lastWasCr, keys, esc
      ensures Valid() && (got, looks, disconnected) == Ready(old(looks))
      ensures State() == FeedAll(old(State()), got).d && held == StoreAll(old(held), FeedAll(old(State()), got).keys)
    {
      hide Valid;
      hide FeedAll;
      hide Ready;
      got := [];
      FeedNothing(State());
      assert [] + Ready(looks).0 == Ready(looks).0;
      var more := true;
      while more
        invariant Valid() && !disconnected
        invariant Ready(old(looks)) ==
          if more then (got + Ready(looks).0, Ready(looks).1, Ready(looks).2) else (got, looks, false)
        invariant State() == FeedAll(old(State()), got).d && held == StoreAll(old(held), FeedAll(old(State()), got).keys)
        decreases Size(looks), more
      {
        var n, d := ReadChannel();
        if n < 0 {
          disconnected := true;
          assert got + [] == got;
          return;
        }
        FeedAppend(old(State()), got, d);
        StoreAllAppend(old(held), FeedAll(old(State()), got).keys, FeedAll(State(), d).keys);
        Associates(got, d, Ready(looks).0);
        FeedBytes(d);
        got := got + d;
        more := n == READ_BUF;
      }
    }

    method Inject()
      requires Valid()
      modifies `keyHead, `held, `exitInjects, keys
      ensures Valid() && held == Exited(old(held), old(exitInjects))
    {
      InjectExit();
    }
  }

  /** The keys waiting once an absent client's shell has been told to leave. */
  function Exited(held: seq<Key>, injects: nat): seq<Key> {
    if held == [] && injects < EXIT_INJECT_MAX then EXIT_KEYS else held
  }

  /** The decoder after some bytes, and after giving up if it does. */
  function Pumped(d: Dec, got: seq<byte>, gaveUp: bool): Step {
    var s := FeedAll(d, got);
    if gaveUp && s.d.esc != [] then Step(Flush(s.d).d, s.keys + Flush(s.d).keys) else s
  }

  lemma FeedNothing(d: Dec)
    ensures FeedAll(d, []) == Step(d, [])
  {
  }

  lemma DecOkBounds(d: Dec)
    requires DecOk(d)
    ensures |d.esc| < ESC_BUF
  {
  }
}
