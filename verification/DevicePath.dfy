/** UEFI device paths (UEFI specification, section 10.3): measuring one, appending a file to it, and reading the directory
    of a file back out of it. */
module DevicePath {
  import opened Bytes
  import opened Runtime

  const MEDIA: byte := 4
  const FILE_PATH: byte := 4
  const END_TYPE: byte := 0x7F
  const END_ENTIRE: byte := 0xFF
  const BACKSLASH: uint16 := 92

  datatype Node = Node(kind: byte, sub: byte, data: seq<byte>)

  predicate IsEnd(kind: byte, sub: byte) {
    kind == END_TYPE && sub == END_ENTIRE
  }

  /** A node that a path can hold: not its end, and with a length that fits the two bytes for it. */
  predicate GoodNode(n: Node) {
    !IsEnd(n.kind, n.sub) && 4 + |n.data| < 0x1_0000
  }

  function NodeBytes(n: Node): (b: seq<byte>)
    ensures |b| == 4 + |n.data|
  {
    [n.kind, n.sub, (4 + |n.data|) % 256, (4 + |n.data|) / 256 % 256] + n.data
  }

  function NodesBytes(nodes: seq<Node>): seq<byte> {
    if nodes == [] then [] else NodeBytes(nodes[0]) + NodesBytes(nodes[1..])
  }

  const END_BYTES: seq<byte> := [END_TYPE, END_ENTIRE, 4, 0]

  // ---- walking ----

  function LenAt(d: seq<byte>, i: nat): nat
    requires i + 4 <= |d|
  {
    var lo: int, hi: int := d[i + 2], d[i + 3];
    lo + 256 * hi
  }

  /** Whether the walk stops at i: at the end node, or at a node too short to be one. */
  predicate StopsAt(d: seq<byte>, i: nat)
    requires i + 4 <= |d|
  {
    LenAt(d, i) < 4 || IsEnd(d[i], d[i + 1])
  }

  /** From i on, the walk stops without leaving the bytes. */
  predicate Closed(d: seq<byte>, i: nat)
    decreases |d| - i
  {
    i + 4 <= |d| && (StopsAt(d, i) || (i + LenAt(d, i) <= |d| && Closed(d, i + LenAt(d, i))))
  }

  function NodeAt(d: seq<byte>, i: nat): Node
    requires i + 4 <= |d| && 4 <= LenAt(d, i) && i + LenAt(d, i) <= |d|
  {
    Node(d[i], d[i + 1], d[i + 4..i + LenAt(d, i)])
  }

  /** The nodes from i on. */
  function Walk(d: seq<byte>, i: nat): seq<Node>
    requires Closed(d, i)
    decreases |d| - i
  {
    if StopsAt(d, i) then [] else [NodeAt(d, i)] + Walk(d, i + LenAt(d, i))
  }

  function EndOf(d: seq<byte>, i: nat): (e: nat)
    requires Closed(d, i)
    ensures i <= e && e + 4 <= |d|
    decreases |d| - i
  {
    if StopsAt(d, i) then i else EndOf(d, i + LenAt(d, i))
  }

  method DevPathLen(dp: seq<byte>) returns (total: nat)
    requires Closed(dp, 0)
    ensures total == EndOf(dp, 0)
  {
    total := 0;
    while true
      invariant Closed(dp, total) && EndOf(dp, total) == EndOf(dp, 0)
      decreases |dp| - total
    {
      var len := LenAt(dp, total);
      if len < 4 {
        return;
      }
      if dp[total] == END_TYPE && dp[total + 1] == END_ENTIRE {
        return;
      }
      total := total + len;
    }
  }

  lemma NodeHeader(before: seq<byte>, n: Node, rest: seq<byte>)
    requires GoodNode(n)
    ensures var d, i := before + (NodeBytes(n) + rest), |before|;
      && LenAt(d, i) == 4 + |n.data| && !StopsAt(d, i) && NodeAt(d, i) == n
  {
    var d, i, b := before + (NodeBytes(n) + rest), |before|, NodeBytes(n);
    var len := 4 + |n.data|;
    TwoBytes(len);
    hide NodeBytes;
    InMiddle(before, b, rest);
    assert b[4..] == n.data;
  }

  lemma TwoBytes(len: nat)
    requires len < 0x1_0000
    ensures len / 256 % 256 == len / 256 && len % 256 + 256 * (len / 256 % 256) == len
  {
  }

  lemma InMiddle(before: seq<byte>, b: seq<byte>, rest: seq<byte>)
    ensures var d, i := before + (b + rest), |before|;
      && (forall k :: 0 <= k < |b| ==> d[i + k] == b[k])
      && (|b| >= 4 ==> d[i] == b[0] && d[i + 1] == b[1] && d[i + 2] == b[2] && d[i + 3] == b[3] && d[i + 4..i + |b|] == b[4..])
  {
  }

  lemma WalkStep(d: seq<byte>, i: nat)
    requires i + 4 <= |d| && !StopsAt(d, i) && i + LenAt(d, i) <= |d| && Closed(d, i + LenAt(d, i))
    ensures Closed(d, i) && Walk(d, i) == [NodeAt(d, i)] + Walk(d, i + LenAt(d, i))
    ensures EndOf(d, i) == EndOf(d, i + LenAt(d, i))
  {
  }

  lemma WalkEnd(before: seq<byte>, rest: seq<byte>)
    ensures var d := before + (END_BYTES + rest);
      Closed(d, |before|) && Walk(d, |before|) == [] && EndOf(d, |before|) == |before|
  {
    var d := before + (END_BYTES + rest);
    assert d[|before|] == END_TYPE && d[|before| + 1] == END_ENTIRE;
  }

  lemma Regroup(before: seq<byte>, n: Node, nodes: seq<Node>, rest: seq<byte>)
    ensures NodesBytes([n] + nodes) == NodeBytes(n) + NodesBytes(nodes)
    ensures before + (NodesBytes([n] + nodes) + rest) == before + (NodeBytes(n) + (NodesBytes(nodes) + rest))
    ensures before + (NodesBytes([n] + nodes) + rest) == (before + NodeBytes(n)) + (NodesBytes(nodes) + rest)
  {
    hide NodeBytes;
    assert ([n] + nodes)[1..] == nodes;
    Associates(NodeBytes(n), NodesBytes(nodes), rest);
    Associates(before, NodeBytes(n), NodesBytes(nodes) + rest);
  }

  /** A path is walked back into the nodes it was made of, wherever it stands and whatever follows it. */
  lemma {:induction false} WalkRoundTrip(before: seq<byte>, nodes: seq<Node>, rest: seq<byte>)
    requires forall n :: n in nodes ==> GoodNode(n)
    ensures var d := before + (NodesBytes(nodes) + (END_BYTES + rest));
      && Closed(d, |before|) && Walk(d, |before|) == nodes && EndOf(d, |before|) == |before| + |NodesBytes(nodes)|
    decreases |nodes|
  {
    hide Closed;
    hide Walk;
    hide EndOf;
    hide NodeBytes;
    hide StopsAt;
    hide NodeAt;
    hide LenAt;
    if nodes == [] {
      WalkEnd(before, rest);
      assert [] + (END_BYTES + rest) == END_BYTES + rest;
    } else {
      hide NodesBytes;
      var n, tail := nodes[0], nodes[1..];
      assert n in nodes && nodes == [n] + tail;
      Regroup(before, n, tail, END_BYTES + rest);
      NodeHeader(before, n, NodesBytes(tail) + (END_BYTES + rest));
      WalkRoundTrip(before + NodeBytes(n), tail, rest);
      WalkStep(before + (NodesBytes(nodes) + (END_BYTES + rest)), |before|);
    }
  }

  // ---- building ----

  function WideBytes(s: seq<uint16>): (b: seq<byte>)
    ensures |b| == 2 * |s|
  {
    if s == [] then [] else [s[0] % 256, s[0] / 256] + WideBytes(s[1..])
  }

  /** The node for a file: its name as a C string of 16-bit units. */
  function FileNode(path: seq<uint16>): Node {
    Node(MEDIA, FILE_PATH, WideBytes(path + [0]))
  }

  /** The buffer TryFile hands to the firmware: the device's nodes, the file's node, the end. */
  method BuildPath(devDp: seq<byte>, path: seq<uint16>) returns (dp: array<byte>)
    requires Closed(devDp, 0)
    ensures fresh(dp) && dp[..] == devDp[..EndOf(devDp, 0)] + (NodeBytes(FileNode(path)) + END_BYTES)
  {
    var devLen := DevPathLen(devDp);
    var pathChars := |path| + 1;
    var nodeLen := 4 + pathChars * 2;
    dp := new byte[devLen + nodeLen + 4](_ => 0);
    ghost var header: seq<byte> := [MEDIA, FILE_PATH, nodeLen % 256, nodeLen / 256 % 256];
    ghost var name := WideBytes(path + [0]);
    MemCpy(dp, 0, devDp[..devLen]);
    assert dp[..devLen] == devDp[..devLen];
    MemCpy(dp, devLen, [MEDIA, FILE_PATH, nodeLen % 256, nodeLen / 256 % 256]);
    assert dp[..devLen + 4] == devDp[..devLen] + header;
    MemCpy(dp, devLen + 4, WideBytes(path + [0]));
    assert dp[..devLen + nodeLen] == devDp[..devLen] + header + name;
    MemCpy(dp, devLen + nodeLen, END_BYTES);
    assert dp[..] == devDp[..devLen] + header + name + END_BYTES;
    assert NodeBytes(FileNode(path)) == header + name;
    Associates(devDp[..devLen], header, name);
    Associates(devDp[..devLen], header + name, END_BYTES);
  }

  lemma {:induction false} NodesBytesSnoc(nodes: seq<Node>, n: Node)
    ensures NodesBytes(nodes + [n]) == NodesBytes(nodes) + NodeBytes(n)
    decreases |nodes|
  {
    hide NodeBytes;
    if nodes == [] {
      assert [] + [n] == [n] && [n][1..] == [];
      assert NodeBytes(n) + [] == NodeBytes(n);
    } else {
      assert (nodes + [n])[1..] == nodes[1..] + [n];
      NodesBytesSnoc(nodes[1..], n);
      Associates(NodeBytes(nodes[0]), NodesBytes(nodes[1..]), NodeBytes(n));
    }
  }

  lemma {:induction false} WalkedFits(d: seq<byte>, i: nat)
    requires Closed(d, i)
    ensures forall n :: n in Walk(d, i) ==> 4 + |n.data| < 0x1_0000
    decreases |d| - i
  {
    if !StopsAt(d, i) {
      WalkedFits(d, i + LenAt(d, i));
    }
  }

  lemma {:induction false} WideByte(s: seq<uint16>, i: nat)
    requires i < |s|
    ensures s[i] as int == WideBytes(s)[2 * i] as int + 256 * (WideBytes(s)[2 * i + 1] as int)
    decreases |s|
  {
    if i > 0 {
      WideByte(s[1..], i - 1);
    }
  }

  /** What stands behind the device's nodes: type 4, subtype 4, the node's length and the name, low bytes first, a NUL, and the end
      of the entire path. */
  lemma FileOnWire(path: seq<uint16>, i: nat)
    requires i <= |path| <= 32764
    ensures var b := NodeBytes(FileNode(path)) + END_BYTES;
      && |b| == 2 * |path| + 10 && b[0] == 4 && b[1] == 4 && b[2] as int + 256 * (b[3] as int) == 2 * |path| + 6
      && b[4 + 2 * i] as int + 256 * (b[5 + 2 * i] as int) == (if i < |path| then path[i] else 0)
      && b[2 * |path| + 6..] == [0x7F, 0xFF, 4, 0]
  {
    WideByte(path + [0], i);
    TwoBytes(2 * |path| + 6);
  }

  /** The path built for a file on a device walks to the device's nodes and the file's node, no more and no less, if and
      only if the node's length fits its two bytes. */
  lemma BuiltPath(nodes: seq<Node>, junk: seq<byte>, path: seq<uint16>)
    requires forall n :: n in nodes ==> GoodNode(n)
    ensures var dev := NodesBytes(nodes) + (END_BYTES + junk);
      Closed(dev, 0) &&
      var d := dev[..EndOf(dev, 0)] + (NodeBytes(FileNode(path)) + END_BYTES);
      (Closed(d, 0) && Walk(d, 0) == nodes + [FileNode(path)]) <==> |path| <= 32764
  {
    hide Closed;
    hide Walk;
    hide EndOf;
    hide NodeBytes;
    hide NodesBytes;
    var dev := NodesBytes(nodes) + (END_BYTES + junk);
    WalkRoundTrip([], nodes, junk);
    assert [] + dev == dev;
    assert dev[..|NodesBytes(nodes)|] == NodesBytes(nodes);
    var all := nodes + [FileNode(path)];
    var d := dev[..EndOf(dev, 0)] + (NodeBytes(FileNode(path)) + END_BYTES);
    if |path| <= 32764 {
      NodesBytesSnoc(nodes, FileNode(path));
      WalkRoundTrip([], all, []);
      Associates(NodesBytes(nodes), NodeBytes(FileNode(path)), END_BYTES);
      assert [] + (NodesBytes(all) + (END_BYTES + [])) == NodesBytes(all) + END_BYTES;
    } else if Closed(d, 0) {
      WalkedFits(d, 0);
      assert FileNode(path) in all;
    }
  }

  // ---- the directory of a file ----

  function Wide(b: seq<byte>): (s: seq<uint16>)
    ensures |s| == |b| / 2
  {
    if |b| < 2 then [] else
      var lo: int, hi: int := b[0], b[1];
      [(lo + 256 * hi) as uint16] + Wide(b[2..])
  }

  lemma {:induction false} WideRoundTrip(s: seq<uint16>)
    ensures Wide(WideBytes(s)) == s
  {
    if s != [] {
      assert WideBytes(s)[2..] == WideBytes(s[1..]);
      WideRoundTrip(s[1..]);
    }
  }

  function BeforeNul(s: seq<uint16>): (r: seq<uint16>)
    ensures r <= s && 0 !in r && (|r| < |s| ==> s[|r|] == 0)
  {
    if s == [] || s[0] == 0 then [] else [s[0]] + BeforeNul(s[1..])
  }

  /** Everything up to the last backslash, with it. */
  function Directory(s: seq<uint16>): (r: seq<uint16>)
    ensures r <= s && (r == [] || r[|r| - 1] == BACKSLASH)
    ensures forall i :: |r| <= i < |s| ==> s[i] != BACKSLASH
  {
    if s == [] || s[|s| - 1] == BACKSLASH then s else Directory(s[..|s| - 1])
  }

  predicate IsFile(n: Node) {
    n.kind == MEDIA && n.sub == FILE_PATH
  }

  /** The directory known after one more node. */
  function DirAfter(n: Node, cap: nat, before: seq<uint16>): seq<uint16> {
    var dir := Directory(BeforeNul(Wide(n.data)));
    if IsFile(n) && |dir| + 1 < cap then dir else before
  }

  /** The directory in the last file node that has room for it in a buffer of cap units, or what was there before. */
  function OwnDir(nodes: seq<Node>, cap: nat, before: seq<uint16>): seq<uint16>
    decreases |nodes|
  {
    if nodes == [] then before else OwnDir(nodes[1..], cap, DirAfter(nodes[0], cap, before))
  }

  /** The C string at the front of a buffer. */
  ghost predicate Reads(out: array<uint16>, s: seq<uint16>)
    reads out
  {
    |s| < out.Length && out[..|s|] == s && out[|s|] == 0 && 0 !in s
  }

  lemma NoDirectory()
    ensures Directory([]) == []
  {
  }

  lemma DirectoryNext(s: seq<uint16>, i: nat)
    requires i < |s|
    ensures Directory(s[..i + 1]) == if s[i] == BACKSLASH then s[..i + 1] else Directory(s[..i])
  {
    assert s[..i + 1][..i] == s[..i] && s[..i + 1][i] == s[i];
  }

  method LastCut(path: seq<uint16>) returns (cut: nat)
    ensures cut == |Directory(BeforeNul(path))|
  {
    hide Directory;
    hide BeforeNul;
    cut := 0;
    var i := 0;
    ghost var all := BeforeNul(path);
    NoDirectory();
    assert all[..0] == [];
    while i < |path| && path[i] != 0
      invariant cut <= i <= |path| && i <= |all|
      invariant cut == |Directory(all[..i])|
    {
      DirectoryNext(all, i);
      if path[i] == BACKSLASH {
        cut := i + 1;
      }
      i := i + 1;
    }
    assert i == |all| && all[..i] == all;
  }

  method OwnDirectory(dp: seq<byte>, out: array<uint16>, cap: nat)
    requires Closed(dp, 0) && 1 <= cap <= out.Length
    modifies out
    ensures Reads(out, OwnDir(Walk(dp, 0), cap, []))
  {
    hide OwnDir;
    hide DirAfter;
    hide NodeAt;
    hide Reads;
    StartEmpty(out);
    var at := 0;
    ghost var dir: seq<uint16> := [];
    while true
      invariant Closed(dp, at) && Reads(out, dir) && OwnDir(Walk(dp, at), cap, dir) == OwnDir(Walk(dp, 0), cap, [])
      decreases |dp| - at
    {
      var len := LenAt(dp, at);
      if len < 4 || (dp[at] == END_TYPE && dp[at + 1] == END_ENTIRE) {
        NoNodes(cap, dir);
        return;
      }
      WalkStep(dp, at);
      OwnDirStep(NodeAt(dp, at), Walk(dp, at + len), cap, dir);
      dir := NoteDirectory(NodeAt(dp, at), out, cap, dir);
      at := at + len;
    }
  }

  lemma NoNodes(cap: nat, before: seq<uint16>)
    ensures OwnDir([], cap, before) == before
  {
  }

  lemma OwnDirStep(n: Node, nodes: seq<Node>, cap: nat, before: seq<uint16>)
    ensures OwnDir([n] + nodes, cap, before) == OwnDir(nodes, cap, DirAfter(n, cap, before))
  {
    assert ([n] + nodes)[1..] == nodes;
  }

  method NoteDirectory(n: Node, out: array<uint16>, cap: nat, ghost dir: seq<uint16>) returns (ghost r: seq<uint16>)
    requires Reads(out, dir) && 1 <= cap <= out.Length
    modifies out
    ensures r == DirAfter(n, cap, dir) && Reads(out, r)
  {
    r := dir;
    if n.kind == MEDIA && n.sub == FILE_PATH {
      var path := Wide(n.data);
      var cut := LastCut(path);
      if cut + 1 < cap {
        r := Directory(BeforeNul(path));
        CopyString(out, path[..cut]);
      }
    }
  }

  method StartEmpty(out: array<uint16>)
    requires 0 < out.Length
    modifies out
    ensures Reads(out, [])
  {
    out[0] := 0;
  }

  method CopyString(out: array<uint16>, s: seq<uint16>)
    requires |s| < out.Length && 0 !in s
    modifies out
    ensures Reads(out, s)
  {
    MemCpy(out, 0, s);
    assert out[..|s|] == s;
    out[|s|] := 0;
  }

  lemma {:induction false} NoFiles(nodes: seq<Node>, last: Node, cap: nat, before: seq<uint16>)
    requires forall n :: n in nodes ==> !IsFile(n)
    ensures OwnDir(nodes + [last], cap, before) == OwnDir([last], cap, before)
    decreases |nodes|
  {
    if nodes == [] {
      assert nodes + [last] == [last];
    } else {
      assert nodes[0] in nodes && (nodes + [last])[0] == nodes[0] && (nodes + [last])[1..] == nodes[1..] + [last];
      NoFiles(nodes[1..], last, cap, before);
    }
  }

  /** Asked of a path that TryFile built on a device with no file nodes of its own, OwnDirectory answers with the file's
      name up to its last backslash, if the buffer has room for it, and with nothing otherwise. */
  lemma DirectoryOfBuilt(nodes: seq<Node>, path: seq<uint16>, cap: nat)
    requires (forall n :: n in nodes ==> !IsFile(n)) && 0 !in path
    ensures OwnDir(nodes + [FileNode(path)], cap, []) == if |Directory(path)| + 1 < cap then Directory(path) else []
  {
    NoFiles(nodes, FileNode(path), cap, []);
    WideRoundTrip(path + [0]);
    var r := BeforeNul(path + [0]);
    assert |r| == |path| && r == path;
    assert [FileNode(path)][1..] == [];
  }
}
