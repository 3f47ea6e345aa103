/** Algorithm lists: comma-separated names, the negotiation rule of RFC 4253 section 7.1, and the KEXINIT message. */
module Algorithms {
  import opened Bytes
  import opened Wire

  const COMMA: byte := 44

  // ---- comma-separated lists ----

  function CommaAt(s: seq<byte>, i: nat): (j: nat)
    requires i <= |s|
    ensures i <= j <= |s|
    ensures forall k :: i <= k < j ==> s[k] != COMMA
    ensures j < |s| ==> s[j] == COMMA
    decreases |s| - i
  {
    if i == |s| || s[i] == COMMA then i else CommaAt(s, i + 1)
  }

  /** The entries the two C loops visit: nothing at all for an empty list, nothing after a final comma. */
  function Entries(s: seq<byte>): seq<seq<byte>>
    decreases |s|
  {
    if s == [] then []
    else
      var j := CommaAt(s, 0);
      if j == |s| then [s] else [s[..j]] + Entries(s[j + 1..])
  }

  /** The textbook split: one more piece than there are commas. */
  function Split(s: seq<byte>): (r: seq<seq<byte>>)
    ensures r != []
    decreases |s|
  {
    var j := CommaAt(s, 0);
    if j == |s| then [s] else [s[..j]] + Split(s[j + 1..])
  }

  function Join(names: seq<seq<byte>>): seq<byte> {
    if names == [] then []
    else if |names| == 1 then names[0]
    else names[0] + [COMMA] + Join(names[1..])
  }

  ghost predicate GoodNames(names: seq<seq<byte>>) {
    names != [] && forall n :: n in names ==> n != [] && COMMA !in n
  }

  lemma {:induction false} EntriesOfSplit(s: seq<byte>)
    ensures Split(s) == Entries(s) || Split(s) == Entries(s) + [[]]
    decreases |s|
  {
    var j := CommaAt(s, 0);
    if s != [] && j < |s| {
      EntriesOfSplit(s[j + 1..]);
      assert [s[..j]] + (Entries(s[j + 1..]) + [[]]) == [s[..j]] + Entries(s[j + 1..]) + [[]];
    } else {
      assert s == [] ==> Split(s) == [[]] == Entries(s) + [[]];
    }
  }

  lemma {:induction false} SplitJoin(names: seq<seq<byte>>)
    requires GoodNames(names)
    ensures Join(names) != [] && Split(Join(names)) == names && Entries(Join(names)) == names
    decreases |names|
  {
    hide Split;
    hide Entries;
    hide Join;
    GoodParts(names);
    if |names| == 1 {
      SplitOne(names[0]);
      JoinParts(names);
    } else {
      SplitJoin(names[1..]);
      SplitFirst(names[0], Join(names[1..]));
      JoinParts(names);
      assert names == [names[0]] + names[1..];
    }
  }

  lemma GoodParts(names: seq<seq<byte>>)
    requires GoodNames(names)
    ensures names[0] != [] && COMMA !in names[0] && (|names| > 1 ==> GoodNames(names[1..]))
  {
    assert names[0] in names && forall n :: n in names[1..] ==> n in names;
  }

  lemma JoinParts(names: seq<seq<byte>>)
    requires GoodNames(names)
    ensures |names| == 1 ==> Join(names) == names[0] && names == [names[0]]
    ensures |names| > 1 ==> Join(names) == names[0] + ([COMMA] + Join(names[1..])) && Join(names) != []
  {
    if |names| > 1 {
      Associates(names[0], [COMMA], Join(names[1..]));
    }
  }

  lemma SplitOne(n: seq<byte>)
    requires n != [] && COMMA !in n
    ensures Split(n) == [n] && Entries(n) == [n]
  {
    var j := CommaAt(n, 0);
    assert forall k :: 0 <= k < |n| ==> n[k] in n;
  }

  lemma SplitFirst(n: seq<byte>, rest: seq<byte>)
    requires COMMA !in n && rest != []
    ensures var s := n + ([COMMA] + rest);
      Split(s) == [n] + Split(rest) && Entries(s) == [n] + Entries(rest)
  {
    hide CommaAt;
    var s := n + ([COMMA] + rest);
    SplitSlices(n, rest);
    CommaAtIs(s, |n|);
  }

  lemma SplitSlices(n: seq<byte>, rest: seq<byte>)
    requires COMMA !in n
    ensures var s := n + ([COMMA] + rest);
      && s[|n|] == COMMA && s[..|n|] == n && s[|n| + 1..] == rest
      && forall k :: 0 <= k < |n| ==> s[k] != COMMA
  {
    assert forall k :: 0 <= k < |n| ==> n[k] in n;
  }

  // ---- the loops ----

  /** The inner scan of both loops. */
  method EntryEnd(list: seq<byte>, i: nat) returns (e: nat)
    requires i <= |list|
    ensures i <= e <= |list| && (e < |list| ==> list[e] == COMMA) && forall k :: i <= k < e ==> list[k] != COMMA
  {
    e := i;
    while e < |list| && list[e] != COMMA
      invariant i <= e <= |list|
      invariant forall k :: i <= k < e ==> list[k] != COMMA
    {
      e := e + 1;
    }
  }

  lemma NoEntries()
    ensures Entries([]) == []
  {
  }

  method ListHas(list: seq<byte>, name: seq<byte>) returns (has: bool)
    ensures has <==> name in Entries(list)
  {
    hide Entries;
    var i := 0;
    assert list[0..] == list;
    NoEntries();
    while i < |list|
      invariant 0 <= i <= |list|
      invariant name in Entries(list) <==> name in Entries(list[i..])
    {
      var e := EntryEnd(list, i);
      HasStep(list, i, e, name);
      if list[i..e] == name {
        return true;
      }
      if e == |list| {
        return false;
      }
      i := e + 1;
    }
    assert list[i..] == [];
    return false;
  }

  lemma CommaAtIs(s: seq<byte>, j: nat)
    requires j <= |s|
    requires forall k :: 0 <= k < j ==> s[k] != COMMA
    requires j < |s| ==> s[j] == COMMA
    ensures CommaAt(s, 0) == j
  {
  }

  lemma FirstEntry(list: seq<byte>, i: nat, e: nat)
    requires i < |list| && i <= e <= |list|
    requires forall k :: i <= k < e ==> list[k] != COMMA
    requires e < |list| ==> list[e] == COMMA
    ensures Entries(list[i..]) == if e == |list| then [list[i..e]] else [list[i..e]] + Entries(list[e + 1..])
  {
    var s, j := list[i..], e - i;
    CommaAtIs(s, j);
    assert s[..j] == list[i..e];
    if e < |list| {
      assert s[j + 1..] == list[e + 1..];
    } else {
      assert s == list[i..e];
    }
  }

  lemma HasStep(list: seq<byte>, i: nat, e: nat, name: seq<byte>)
    requires i < |list| && i <= e <= |list|
    requires forall k :: i <= k < e ==> list[k] != COMMA
    requires e < |list| ==> list[e] == COMMA
    ensures name in Entries(list[i..]) <==> list[i..e] == name || (e < |list| && name in Entries(list[e + 1..]))
  {
    FirstEntry(list, i, e);
  }

  lemma PickStep(list: seq<byte>, i: nat, e: nat, ss: seq<seq<byte>>)
    requires i < |list| && i <= e <= |list|
    requires forall k :: i <= k < e ==> list[k] != COMMA
    requires e < |list| ==> list[e] == COMMA
    ensures FirstCommon(Entries(list[i..]), ss) ==
      if list[i..e] in ss then Some(list[i..e])
      else if e == |list| then None
      else FirstCommon(Entries(list[e + 1..]), ss)
  {
    FirstEntry(list, i, e);
    var n := list[i..e];
    if e < |list| {
      assert ([n] + Entries(list[e + 1..]))[1..] == Entries(list[e + 1..]);
    } else {
      var one: seq<seq<byte>> := [n];
      assert one[1..] == [];
    }
  }

  function FirstCommon(cs: seq<seq<byte>>, ss: seq<seq<byte>>): Option<seq<byte>> {
    if cs == [] then None
    else if cs[0] in ss then Some(cs[0])
    else FirstCommon(cs[1..], ss)
  }

  /** What the whole negotiation of one list comes to. */
  function Pick(client: seq<byte>, ours: seq<byte>): Option<seq<byte>> {
    FirstCommon(Entries(client), Entries(ours))
  }

  /** PickAlg: an offset and a length into the client's list, or nothing. */
  method PickAlg(client: seq<byte>, ours: seq<byte>) returns (found: bool, at: nat, len: nat)
    ensures found <==> Pick(client, ours).Some?
    ensures found ==> at + len <= |client| && client[at..at + len] == Pick(client, ours).value
    ensures !found ==> len == 0
  {
    hide Entries;
    var i := 0;
    assert client[0..] == client;
    NoEntries();
    while i < |client|
      invariant 0 <= i
      invariant i <= |client| ==> Pick(client, ours) == FirstCommon(Entries(client[i..]), Entries(ours))
      invariant i > |client| ==> Pick(client, ours).None?
    {
      var j := EntryEnd(client, i);
      PickStep(client, i, j, Entries(ours));
      var has := ListHas(ours, client[i..j]);
      if has {
        return true, i, j - i;
      }
      i := j + 1;
    }
    assert i == |client| ==> client[i..] == [];
    return false, 0, 0;
  }

  method FirstEntryLen(list: seq<byte>) returns (i: nat)
    ensures i == CommaAt(list, 0)
  {
    i := 0;
    while i < |list| && list[i] != COMMA
      invariant i <= |list|
      invariant CommaAt(list, 0) == CommaAt(list, i)
    {
      i := i + 1;
    }
  }

  // ---- what it means ----

  ghost predicate IsFirstCommon(cs: seq<seq<byte>>, ss: seq<seq<byte>>, k: nat) {
    k < |cs| && cs[k] in ss && forall j :: 0 <= j < k ==> cs[j] !in ss
  }

  lemma {:induction false} FirstCommonMeaning(cs: seq<seq<byte>>, ss: seq<seq<byte>>)
    ensures FirstCommon(cs, ss).None? <==> forall j :: 0 <= j < |cs| ==> cs[j] !in ss
    ensures forall k: nat :: IsFirstCommon(cs, ss, k) ==> FirstCommon(cs, ss) == Some(cs[k])
    ensures FirstCommon(cs, ss).Some? ==> exists k: nat :: IsFirstCommon(cs, ss, k)
    decreases |cs|
  {
    if cs == [] {
    } else if cs[0] in ss {
      assert IsFirstCommon(cs, ss, 0);
    } else {
      FirstCommonMeaning(cs[1..], ss);
      assert forall j :: 0 < j < |cs| ==> cs[j] == cs[1..][j - 1];
      if FirstCommon(cs, ss).Some? {
        var k: nat :| IsFirstCommon(cs[1..], ss, k);
        assert IsFirstCommon(cs, ss, k + 1);
      }
      forall k: nat | IsFirstCommon(cs, ss, k)
        ensures FirstCommon(cs, ss) == Some(cs[k])
      {
        assert k > 0;
        assert IsFirstCommon(cs[1..], ss, k - 1) by {
          assert forall j :: 0 <= j < k - 1 ==> cs[1..][j] == cs[j + 1];
        }
      }
    }
  }

  /** PickAlg against the RFC: with no empty name in the server's list, the answer is the first name of the
      comma-split client list that is a name of the comma-split server list, and none when there is no such name. */
  lemma PickMeetsRfc(client: seq<byte>, ours: seq<byte>)
    requires [] !in Split(ours)
    ensures Pick(client, ours) == FirstCommon(Split(client), Split(ours))
    ensures Pick(client, ours).None? <==> forall j :: 0 <= j < |Split(client)| ==> Split(client)[j] !in Split(ours)
    ensures forall k: nat :: IsFirstCommon(Split(client), Split(ours), k) ==> Pick(client, ours) == Some(Split(client)[k])
  {
    EntriesOfSplit(client);
    EntriesOfSplit(ours);
    assert [] in Entries(ours) + [[]];
    assert Split(ours) == Entries(ours);
    FirstCommonIgnoresTail(Entries(client), [[]], Split(ours));
    FirstCommonMeaning(Split(client), Split(ours));
  }

  lemma {:induction false} FirstCommonIgnoresTail(cs: seq<seq<byte>>, tail: seq<seq<byte>>, ss: seq<seq<byte>>)
    requires forall t :: t in tail ==> t !in ss
    ensures FirstCommon(cs + tail, ss) == FirstCommon(cs, ss)
    decreases |cs| + |tail|
  {
    if cs == [] {
      if tail != [] {
        assert (cs + tail) == tail && tail[0] in tail;
        assert [] + tail[1..] == tail[1..];
        FirstCommonIgnoresTail([], tail[1..], ss);
      }
    } else {
      assert (cs + tail)[1..] == cs[1..] + tail;
      FirstCommonIgnoresTail(cs[1..], tail, ss);
    }
  }

  // ---- the server's lists ----

  const KEX_NAMES := [Ascii("curve25519-sha256"), Ascii("curve25519-sha256@libssh.org")]
  const HOSTKEY_NAMES := [Ascii("ssh-ed25519")]
  const ENC_NAMES := [Ascii("aes128-ctr"), Ascii("aes256-ctr"), Ascii("aes192-ctr")]
  const MAC_NAMES := [Ascii("hmac-sha2-256"), Ascii("hmac-sha2-512")]
  const COMP_NAMES := [Ascii("none")]

  datatype MacType = Sha256 | Sha512

  type KeyLen = n: nat | n <= 32

  function EncKeyLen(name: seq<byte>): KeyLen {
    if name == Ascii("aes128-ctr") then 16
    else if name == Ascii("aes192-ctr") then 24
    else 32
  }

  function MacTypeOf(name: seq<byte>): MacType {
    if name == Ascii("hmac-sha2-512") then Sha512 else Sha256
  }

  function MacLen(t: MacType): nat {
    if t.Sha512? then 64 else 32
  }

  // ---- KEXINIT ----

  datatype KexLists = KexLists(
    kex: seq<byte>, hostKey: seq<byte>,
    encCs: seq<byte>, encSc: seq<byte>, macCs: seq<byte>, macSc: seq<byte>, compCs: seq<byte>, compSc: seq<byte>,
    firstFollows: byte)

  const OUR_LISTS := KexLists(
    Join(KEX_NAMES), Join(HOSTKEY_NAMES),
    Join(ENC_NAMES), Join(ENC_NAMES), Join(MAC_NAMES), Join(MAC_NAMES), Join(COMP_NAMES), Join(COMP_NAMES), 0)

  /** Everything after the message number and the cookie. */
  function KexItems(l: KexLists): seq<Item> {
    [IStr(l.kex), IStr(l.hostKey), IStr(l.encCs), IStr(l.encSc), IStr(l.macCs), IStr(l.macSc),
     IStr(l.compCs), IStr(l.compSc), IStr([]), IStr([]), IByte(l.firstFollows), IU32(0)]
  }

  function KexBody(l: KexLists, cap: nat): WState {
    WAll(WState([], cap, false), KexItems(l))
  }

  /** n calls of RStr in a row. */
  function RStrs(r: Cursor, n: nat): (res: (seq<seq<byte>>, Cursor))
    ensures |res.0| == n
  {
    if n == 0 then ([], r)
    else
      var (l, r1) := RStrs(r, n - 1);
      var (s, r2) := RStr(r1);
      (l + [s], r2)
  }

  /** Negotiate's reads, in order; nothing when any of them failed. */
  function ParseKex(body: seq<byte>): Option<KexLists> {
    var (l, r1) := RStrs(RInit(body), 10);
    var (follows, r2) := RByte(r1);
    var (_, r3) := RU32(r2);
    if r3.err then None else Some(KexLists(l[0], l[1], l[2], l[3], l[4], l[5], l[6], l[7], follows))
  }

  lemma {:induction false} WAllAppend(w: WState, a: seq<Item>, b: seq<Item>)
    ensures WAll(w, a + b) == WAll(WAll(w, a), b)
    decreases |a|
  {
    if a == [] {
      assert a + b == b;
    } else {
      assert (a + b)[1..] == a[1..] + b;
      WAllAppend(WItem(w, a[0]), a[1..], b);
    }
  }

  lemma WAllFirst(w: WState, items: seq<Item>)
    requires items != []
    ensures WAll(w, items) == WAll(WItem(w, items[0]), items[1..])
  {
    hide WItem;
  }

  lemma WAllNone(w: WState)
    ensures WAll(w, []) == w
  {
  }

  /** The k-th read of a written message, from where the k-th write began to where it ended. */
  lemma ReadAt(w: WState, items: seq<Item>, k: nat)
    requires k < |items| && !WAll(w, items).err && w.cap < TWO32
    ensures var d := WAll(w, items).data;
      RItem(Cursor(d, |WAll(w, items[..k]).data|, false), items[k])
        == (Normal(items[k]), Cursor(d, |WAll(w, items[..k + 1]).data|, false))
  {
    hide RItem;
    hide WItem;
    hide Normal;
    hide WAll;
    var d := WAll(w, items).data;
    var w0 := WAll(w, items[..k]);
    var w1 := WItem(w0, items[k]);
    assert items == items[..k] + items[k..] && items[k..][1..] == items[k + 1..];
    WAllAppend(w, items[..k], items[k..]);
    WAllFirst(w0, items[k..]);
    assert items[..k + 1] == items[..k] + [items[k]] && [items[k]][1..] == [];
    WAllAppend(w, items[..k], [items[k]]);
    WAllFirst(w0, [items[k]]);
    WAllNone(w1);
    WAllSticky(w1, items[k + 1..]);
    WAllSticky(w, items[..k]);
    assert w0.cap == w.cap;
    assert w1.data + d[|w1.data|..] == d;
    ReadItemBack(w0, items[k], d[|w1.data|..]);
  }

  ghost predicate ReadsBack(d: seq<byte>, items: seq<Item>, at: seq<nat>) {
    |at| == |items| + 1 &&
    forall k :: 0 <= k < |items| ==>
      RItem(Cursor(d, at[k], false), items[k]) == (Normal(items[k]), Cursor(d, at[k + 1], false))
  }

  lemma Boundaries(w: WState, items: seq<Item>) returns (at: seq<nat>)
    requires !WAll(w, items).err && w.cap < TWO32
    ensures ReadsBack(WAll(w, items).data, items, at) && at[0] == |w.data|
  {
    at := seq(|items| + 1, k requires 0 <= k <= |items| => |WAll(w, items[..k]).data|);
    forall k | 0 <= k < |items|
      ensures RItem(Cursor(WAll(w, items).data, at[k], false), items[k])
        == (Normal(items[k]), Cursor(WAll(w, items).data, at[k + 1], false))
    {
      ReadAt(w, items, k);
    }
    assert items[..0] == [];
  }

  lemma {:induction false} StrsFromBoundaries(d: seq<byte>, items: seq<Item>, at: seq<nat>, n: nat)
    requires ReadsBack(d, items, at) && at[0] == 0
    requires n <= |items| && forall k :: 0 <= k < n ==> items[k].IStr?
    ensures RStrs(RInit(d), n).1 == Cursor(d, at[n], false)
    ensures forall k :: 0 <= k < n ==> RStrs(RInit(d), n).0[k] == items[k].s
  {
    hide RStr;
    if n > 0 {
      StrsFromBoundaries(d, items, at, n - 1);
      StrRead(d, items, at, n - 1);
    }
  }

  lemma StrRead(d: seq<byte>, items: seq<Item>, at: seq<nat>, k: nat)
    requires ReadsBack(d, items, at) && k < |items| && items[k].IStr?
    ensures RStr(Cursor(d, at[k], false)) == (items[k].s, Cursor(d, at[k + 1], false))
  {
    hide RStr;
    assert RItem(Cursor(d, at[k], false), items[k]) == (Normal(items[k]), Cursor(d, at[k + 1], false));
  }

  lemma ParseFromBoundaries(d: seq<byte>, l: KexLists, at: seq<nat>)
    requires ReadsBack(d, KexItems(l), at) && at[0] == 0
    ensures ParseKex(d) == Some(l)
  {
    var items := KexItems(l);
    assert |items| == 12;
    StrsFromBoundaries(d, items, at, 10);
    assert RItem(Cursor(d, at[10], false), items[10]) == (Normal(items[10]), Cursor(d, at[11], false));
    assert RItem(Cursor(d, at[11], false), items[11]) == (Normal(items[11]), Cursor(d, at[12], false));
  }

  /** A KEXINIT that fitted its buffer is parsed back to the lists it was built from. */
  lemma KexRoundTrip(l: KexLists, cap: nat)
    requires !KexBody(l, cap).err && cap < TWO32
    ensures ParseKex(KexBody(l, cap).data) == Some(l)
  {
    var at := Boundaries(WState([], cap, false), KexItems(l));
    ParseFromBoundaries(KexBody(l, cap).data, l, at);
  }

  lemma PickSelf(names: seq<seq<byte>>)
    requires GoodNames(names)
    ensures Pick(Join(names), Join(names)) == Some(names[0])
  {
    SplitJoin(names);
  }

  lemma GoodName(s: string)
    requires s != "" && forall k :: 0 <= k < |s| ==> s[k] as int < 256 && s[k] != ','
    ensures Ascii(s) != [] && COMMA !in Ascii(s)
  {
  }

  lemma OurNamesAreGood()
    ensures GoodNames(KEX_NAMES) && GoodNames(HOSTKEY_NAMES) && GoodNames(ENC_NAMES) && GoodNames(MAC_NAMES) && GoodNames(COMP_NAMES)
  {
    GoodName("curve25519-sha256");
    GoodName("curve25519-sha256@libssh.org");
    GoodName("ssh-ed25519");
    GoodName("aes128-ctr");
    GoodName("aes256-ctr");
    GoodName("aes192-ctr");
    GoodName("hmac-sha2-256");
    GoodName("hmac-sha2-512");
    GoodName("none");
  }

  /** A client that offers the server's own lists gets the head of each of them. */
  lemma OwnListsPickHeads()
    ensures Pick(OUR_LISTS.kex, Join(KEX_NAMES)) == Some(Ascii("curve25519-sha256"))
    ensures Pick(OUR_LISTS.hostKey, Join(HOSTKEY_NAMES)) == Some(Ascii("ssh-ed25519"))
    ensures Pick(OUR_LISTS.encCs, Join(ENC_NAMES)) == Pick(OUR_LISTS.encSc, Join(ENC_NAMES)) == Some(Ascii("aes128-ctr"))
    ensures Pick(OUR_LISTS.macCs, Join(MAC_NAMES)) == Pick(OUR_LISTS.macSc, Join(MAC_NAMES)) == Some(Ascii("hmac-sha2-256"))
    ensures Pick(OUR_LISTS.compCs, Join(COMP_NAMES)) == Pick(OUR_LISTS.compSc, Join(COMP_NAMES)) == Some(Ascii("none"))
  {
    OurNamesAreGood();
    PickSelf(KEX_NAMES);
    PickSelf(HOSTKEY_NAMES);
    PickSelf(ENC_NAMES);
    PickSelf(MAC_NAMES);
    PickSelf(COMP_NAMES);
  }
}
