/** What the server answers, message by message and in the RFCs' own numbers: services and login (RFC 4252), channels (RFC
    4254), and the messages of the transport that are not key exchange (RFC 4253 section 11). */
module Dialogue {
  import opened Bytes
  import opened Wire
  import opened Environment
  import opened RecordLayer
  import opened Session
  import opened SessionFrames
  import opened Randomness
  import opened Connection

  // ---- what has been said ----

  function Said(s: seq<Sent>): (p: seq<seq<byte>>)
    ensures |p| == |s|
  {
    seq(|s|, i requires 0 <= i < |s| => s[i].payload)
  }

  /** Exactly these packets have gone out since. */
  predicate Adds(k: Core, k': Core, packets: seq<seq<byte>>) {
    k.hist.sent <= k'.hist.sent && Said(k'.hist.sent) == Said(k.hist.sent) + packets
  }

  /** These packets and nothing else, each with randomness of its own; the state is still the same unless the socket has refused one. */
  ghost predicate Answers(env: Env, k: Core, r: Ret, packets: seq<seq<byte>>) {
    && Adds(k, r.k, packets) && SentOnly(k, r.k) && r.k.chan == k.chan && r.k.versionSent == k.versionSent
    && r.k.state == (if r.ok then k.state else StClosed) && (Draws(env, k) ==> Draws(env, r.k))
  }

  /** A DISCONNECT with this reason, and the connection is over. */
  ghost predicate Refuses(env: Env, k: Core, r: Ret, reason: uint32, why: string) {
    && Adds(k, r.k, [Message(1, [IU32(reason), IStr(Ascii(why)), IStr([])])]) && SentOnly(k, r.k) && r.k.chan == k.chan
    && !r.ok && r.k.state.StClosed? && (Draws(env, k) ==> Draws(env, r.k))
  }

  lemma SendAnswers(env: Env, k: Core, p: seq<byte>)
    requires !k.state.StClosed? && 1 <= |p| <= MAX_PAYLOAD && Lead(p) == 0
    ensures Answers(env, k, SendPacket(env, k, p), [p])
  {
    hide SendPacket;
    hide TraceOf;
    hide Drawn;
    Send(env, k, p);
    SendSends(env, k, p);
    if Draws(env, k) {
      PlainDraws(env, k, p);
    }
    var s := SendPacket(env, k, p).k.hist.sent;
    assert s == k.hist.sent + [s[|k.hist.sent|]];
  }

  lemma Silent(env: Env, k: Core)
    ensures Answers(env, k, Ret(k, true), [])
  {
    assert Said(k.hist.sent) + [] == Said(k.hist.sent);
  }

  lemma FailRefuses(env: Env, k: Core, reason: uint32, why: string)
    requires !k.state.StClosed? && |why| <= 1000
    ensures Refuses(env, k, Fail(env, k, reason, why), reason, why)
  {
    hide SendPacket;
    hide Adds;
    hide SentOnly;
    hide Message;
    MessageThree(1, IU32(reason), IStr(Ascii(why)), IStr([]));
    var p := DisconnectMsg(reason, why);
    SendAnswers(env, k, p);
    var k1 := SendPacket(env, k, p).k;
    ClosedToo(k, k1, [p]);
  }

  lemma ClosedToo(k: Core, k1: Core, ps: seq<seq<byte>>)
    requires Adds(k, k1, ps) && SentOnly(k, k1)
    ensures Adds(k, k1.(state := StClosed), ps) && SentOnly(k, k1.(state := StClosed))
  {
  }

  /** The session once a payload has been taken from the wire. */
  function Heard(k: Core, p: seq<byte>): Core {
    k.(hist := k.hist.(handled := k.hist.handled + [p]))
  }

  /** A session in which a packet other than a key exchange's is looked at. */
  predicate Listening(k: Core) {
    !k.state.StVersion? && !k.state.StClosed?
  }

  // ---- services and login ----

  /** RFC 4253 section 10. */
  lemma ServiceAnswered(env: Env, k: Core, p: seq<byte>)
    requires Listening(k) && Is(p, 5)
    ensures var (got, end) := RAll(RInit(p[1..]), [NAME]);
      var (k1, r) := (Heard(k, p), Deliver(env, k, p));
      if k.state.StKex? then Refuses(env, k1, r, 2, "service request before kex")
      else if end.err || got[0] != IStr(Ascii("ssh-userauth")) then Refuses(env, k1, r, 2, "unknown service")
      else Answers(env, k1, r, [Message(6, [IStr(Ascii("ssh-userauth"))])])
  {
    hide RStr;
    hide SendPacket;
    hide Fail;
    hide Answers;
    hide Refuses;
    hide Message;
    var k1 := Heard(k, p);
    ReadOne(RInit(p[1..]), NAME);
    FailRefuses(env, k1, 2, "service request before kex");
    FailRefuses(env, k1, 2, "unknown service");
    MessageOne(6, IStr(Ascii("ssh-userauth")));
    SendAnswers(env, k1, [MSG_SERVICE_ACCEPT] + Str(Ascii("ssh-userauth")));
    assert Deliver(env, k, p) == OnServiceRequest(env, k1, p);
  }

  /** What the callback sees of a buffer. */
  predicate IsCString(s: seq<byte>, c: seq<byte>) {
    c <= s && 0 !in c && (c == s || s[|c|] == 0)
  }

  lemma {:induction false} CStringOf(s: seq<byte>)
    ensures IsCString(s, CStr(s))
  {
    if s != [] && s[0] != 0 {
      CStringOf(s[1..]);
      assert s == [s[0]] + s[1..];
    }
  }

  /** USERAUTH_FAILURE: only a password can help, and this was no partial success (RFC 4252 section 5.1). */
  function AuthFailure(): seq<byte> {
    Message(51, [IStr(Ascii("password")), IByte(0)])
  }

  /** The same byte for byte. */
  lemma FailureBytes()
    ensures AuthFailure() == [51, 0, 0, 0, 8, 112, 97, 115, 115, 119, 111, 114, 100, 0]
  {
    hide PutU32;
    hide Ascii;
    hide Encoded;
    MessageTwo(51, IStr(Ascii("password")), IByte(0));
    EightLetters();
    assert Low32(8) == 8;
    assert [51] + ([0, 0, 0, 8] + [112, 97, 115, 115, 119, 111, 114, 100]) + [0]
      == [51, 0, 0, 0, 8, 112, 97, 115, 115, 119, 111, 114, 100, 0];
  }

  lemma EightLetters()
    ensures PutU32(8) == [0, 0, 0, 8]
    ensures Ascii("password") == [112, 97, 115, 115, 119, 111, 114, 100]
  {
  }

  lemma FailureAnswers(env: Env, k: Core)
    requires !k.state.StClosed?
    ensures Answers(env, k, SendAuthFailure(env, k), [AuthFailure()])
  {
    hide SendPacket;
    hide Answers;
    hide Message;
    MessageTwo(51, IStr(Ascii("password")), IByte(0));
    SendAnswers(env, k, [MSG_USERAUTH_FAILURE] + Str(Ascii("password")) + [0]);
  }

  /** The callback's answer decides: admitted, refused, or refused for the fifth time. */
  ghost predicate Judged(env: Env, k: Core, r: Ret, user: seq<byte>, pass: seq<byte>) {
    var yes := env.authorize(k.login.tries, user, pass);
    var k1 := k.(hist := k.hist.(auths := k.hist.auths + [yes]));
    var k2 := k1.(login := k1.login.(tries := k1.login.tries + 1));
    if yes then Answers(env, k1.(login := k1.login.(authenticated := true), state := StConn), r, [Message(52, [])])
    else if k2.login.tries >= 5 then Refuses(env, k2, r, 14, "too many failed attempts")
    else Answers(env, k2, r, [AuthFailure()])
  }

  lemma AuthorizeJudges(env: Env, k: Core, pass: seq<byte>)
    requires !k.state.StClosed?
    ensures Judged(env, k, Authorize(env, k, pass), CStr(k.login.user), pass)
  {
    hide SendPacket;
    hide SendAuthFailure;
    hide Fail;
    hide Answers;
    hide Refuses;
    hide Message;
    hide CStr;
    var yes := Consents(env, k.login.tries, CStr(k.login.user), pass);
    var k1 := k.(hist := k.hist.(auths := k.hist.auths + [yes]));
    if yes {
      MessageNone(52);
      SendAnswers(env, k1.(login := k1.login.(authenticated := true), state := StConn), [MSG_USERAUTH_SUCCESS]);
    } else {
      var k2 := k1.(login := k1.login.(tries := k1.login.tries + 1));
      FailRefuses(env, k2, 14, "too many failed attempts");
      FailureAnswers(env, k2);
    }
  }

  /** As much of a user's name as the server keeps. */
  function Kept(user: seq<byte>): seq<byte> {
    if |user| >= 64 then user[..63] else user
  }

  /** RFC 4252 sections 5 and 8. Of the requests before the login, one that cannot be read or asks for another service ends
      the connection; the callback is asked about a password that fits, once, and everything else fails without it. */
  lemma AuthAnswered(env: Env, k: Core, p: seq<byte>)
    requires k.state.StAuth? && Is(p, 50)
    ensures var (got, end) := RAll(RInit(p[1..]), [NAME, NAME, NAME]);
      var (more, end2) := RAll(end, [FLAG, NAME]);
      var (k1, r) := (Heard(k, p), Deliver(env, k, p));
      var k2 := k1.(login := k1.login.(user := Kept(Text(got[0]))));
      if end.err then Refuses(env, k1, r, 2, "bad USERAUTH_REQUEST")
      else if got[1] != IStr(Ascii("ssh-connection")) then Refuses(env, k1, r, 2, "unknown service")
      else if got[2] != IStr(Ascii("password")) || more[0] != IByte(0) || end2.err || |Text(more[1])| >= 256 then
        Answers(env, k2, r, [AuthFailure()])
      else Judged(env, k2, r, CStr(Kept(Text(got[0]))), CStr(Text(more[1])))
  {
    hide RStr;
    hide RByte;
    hide SendAuthFailure;
    hide Authorize;
    hide Fail;
    hide Answers;
    hide Refuses;
    hide Judged;
    hide AuthFailure;
    hide CStr;
    var k1 := Heard(k, p);
    ReadThree(RInit(p[1..]), NAME, NAME, NAME);
    var a := ParseAuth(p);
    ReadTwo(a.rest, FLAG, NAME);
    FailRefuses(env, k1, 2, "bad USERAUTH_REQUEST");
    FailRefuses(env, k1, 2, "unknown service");
    var k2 := k1.(login := k1.login.(user := Kept(a.user)));
    FailureAnswers(env, k2);
    AuthorizeJudges(env, k2, CStr(RStr(RByte(a.rest).1).0));
    assert Deliver(env, k, p) == OnUserauth(env, k1, p);
  }

  /** Before the first key exchange a request ends the connection, after the login it is not looked at. */
  lemma AuthElsewhere(env: Env, k: Core, p: seq<byte>)
    requires Listening(k) && Is(p, 50)
    ensures k.state.StKex? ==> Refuses(env, Heard(k, p), Deliver(env, k, p), 2, "auth before kex")
    ensures k.state.StConn? ==> Deliver(env, k, p) == Ret(Heard(k, p), true)
  {
    hide Fail;
    hide Refuses;
    hide ParseAuth;
    hide CheckPassword;
    FailRefuses(env, Heard(k, p), 2, "auth before kex");
    assert Deliver(env, k, p) == OnUserauth(env, Heard(k, p), p);
  }

  // ---- channels ----

  /** RFC 4254 section 4: whatever is asked for globally is refused, if an answer is wanted. */
  lemma GlobalAnswered(env: Env, k: Core, p: seq<byte>)
    requires Listening(k) && Is(p, 80)
    ensures var (got, end) := RAll(RInit(p[1..]), [NAME, FLAG]);
      Answers(env, Heard(k, p), Deliver(env, k, p), if !end.err && got[1] != IByte(0) then [Message(82, [])] else [])
  {
    hide RStr;
    hide RByte;
    hide SendPacket;
    hide Answers;
    hide Message;
    var k1 := Heard(k, p);
    ReadTwo(RInit(p[1..]), NAME, FLAG);
    MessageNone(82);
    SendAnswers(env, k1, [MSG_REQUEST_FAILURE]);
    Silent(env, k1);
    assert Deliver(env, k, p) == OnGlobalRequest(env, k1, p);
  }

  /** The one channel, under the client's number, with the client's window and packet limit. */
  function Opened(k: Core, sender: uint32, window: uint32, maxPkt: uint32): Core {
    k.(chan := k.chan.(open := true, remote := sender, window := window, maxPkt := maxPkt,
                       remoteEof := false, closeSent := false, closeRecv := false),
       hist := k.hist.(granted := window, wrapped := false))
  }

  function OpenRefused(sender: uint32, reason: uint32, why: string): seq<byte> {
    Message(92, [IU32(sender), IU32(reason), IStr(Ascii(why)), IStr([])])
  }

  lemma ConfirmAnswers(env: Env, k: Core, sender: uint32)
    requires !k.state.StClosed?
    ensures Answers(env, k, SendPacket(env, k, [MSG_CHANNEL_OPEN_CONFIRM] + PutU32(sender) + PutU32(0) + PutU32(LOCAL_WINDOW) + PutU32(LOCAL_MAXPKT)),
                    [Message(91, [IU32(sender), IU32(0), IU32(32768), IU32(32768)])])
  {
    hide SendPacket;
    hide Answers;
    hide Message;
    MessageFour(91, IU32(sender), IU32(0), IU32(32768), IU32(32768));
    SendAnswers(env, k, [MSG_CHANNEL_OPEN_CONFIRM] + PutU32(sender) + PutU32(0) + PutU32(LOCAL_WINDOW) + PutU32(LOCAL_MAXPKT));
  }

  lemma RefusalAnswers(env: Env, k: Core, sender: uint32, reason: uint32, why: string)
    requires !k.state.StClosed? && |why| <= 1000
    ensures Answers(env, k, SendPacket(env, k, [MSG_CHANNEL_OPEN_FAILURE] + PutU32(sender) + PutU32(reason) + Str(Ascii(why)) + Str([])),
                    [OpenRefused(sender, reason, why)])
  {
    hide SendPacket;
    hide Answers;
    hide Message;
    MessageFour(92, IU32(sender), IU32(reason), IStr(Ascii(why)), IStr([]));
    SendAnswers(env, k, [MSG_CHANNEL_OPEN_FAILURE] + PutU32(sender) + PutU32(reason) + Str(Ascii(why)) + Str([]));
  }

  ghost predicate OpenOutcome(env: Env, k: Core, r: Ret, p: seq<byte>)
    requires p != []
  {
    var (got, end) := RAll(RInit(p[1..]), [NAME, WORD, WORD, WORD]);
    var sender := Number(got[1]);
    if !k.state.StConn? then Refuses(env, k, r, 2, "channel before auth")
    else if end.err then Refuses(env, k, r, 2, "bad CHANNEL_OPEN")
    else if k.chan.open then Answers(env, k, r, [OpenRefused(sender, 4, "only one session per connection")])
    else if got[0] != IStr(Ascii("session")) then Answers(env, k, r, [OpenRefused(sender, 3, "unsupported channel type")])
    else Answers(env, Opened(k, sender, Number(got[2]), Number(got[3])), r,
                 [Message(91, [IU32(sender), IU32(0), IU32(32768), IU32(32768)])])
  }

  lemma OpenDone(env: Env, k: Core, p: seq<byte>)
    requires !k.state.StClosed? && p != []
    ensures OpenOutcome(env, k, OnChannelOpen(env, k, p), p)
  {
    hide RStr;
    hide RU32;
    hide PutU32;
    hide SendPacket;
    hide Fail;
    hide Answers;
    hide Refuses;
    hide OpenRefused;
    hide Message;
    hide Ascii;
    ReadFour(RInit(p[1..]), NAME, WORD, WORD, WORD);
    var got := RAll(RInit(p[1..]), [NAME, WORD, WORD, WORD]).0;
    var sender := Number(got[1]);
    FailRefuses(env, k, 2, "channel before auth");
    FailRefuses(env, k, 2, "bad CHANNEL_OPEN");
    ConfirmAnswers(env, OpenChannel(k, sender, Number(got[2]), Number(got[3])), sender);
    RefusalAnswers(env, k, sender, 4, "only one session per connection");
    RefusalAnswers(env, k, sender, 3, "unsupported channel type");
  }

  /** RFC 4254 section 5.1: the first session channel is opened, as number 0 with a window and packets of 32768 bytes; any
      further one and any other kind is refused, under the number the client gave it. */
  lemma OpenAnswered(env: Env, k: Core, p: seq<byte>)
    requires Listening(k) && Is(p, 90)
    ensures OpenOutcome(env, Heard(k, p), Deliver(env, k, p), p)
  {
    hide OpenOutcome;
    hide OnChannelOpen;
    OpenDone(env, Heard(k, p), p);
    assert Deliver(env, k, p) == OnChannelOpen(env, Heard(k, p), p);
  }

  /** The terminal's size, columns before rows, each taken when it is between 1 and 999. */
  function Sized(c: Chan, cols: uint32, rows: uint32): Chan {
    c.(cols := if 1 <= cols <= 999 then cols else c.cols, rows := if 1 <= rows <= 999 then rows else c.rows)
  }

  /** What a channel request comes to, by its name: RFC 4254 sections 6.2, 6.4, 6.5 and 6.7. A terminal is asked for with its
      name and then its size, a change of window with the size alone. */
  function Granted(c: Chan, kind: Item, rest: Cursor): (Chan, bool) {
    var (pty, end) := RAll(rest, [NAME, WORD, WORD]);
    var (size, end2) := RAll(rest, [WORD, WORD]);
    if kind == IStr(Ascii("pty-req")) then (if end.err then (c, false) else (Sized(c, Number(pty[1]), Number(pty[2])), true))
    else if kind == IStr(Ascii("shell")) then (c.(shellReady := true), true)
    else if kind == IStr(Ascii("window-change")) then (if end2.err then c else Sized(c, Number(size[0]), Number(size[1])), true)
    else (c, kind == IStr(Ascii("env")))
  }

  lemma EffectIsGranted(c: Chan, kind: seq<byte>, rest: Cursor)
    ensures RequestEffect(c, kind, rest) == Granted(c, IStr(kind), rest)
  {
    hide RStr;
    hide RU32;
    hide Ascii;
    ReadThree(rest, NAME, WORD, WORD);
    ReadTwo(rest, WORD, WORD);
  }

  lemma ReplyAnswers(env: Env, k: Core, msg: byte)
    requires !k.state.StClosed? && msg >= 32
    ensures Answers(env, k, SendChannelReply(env, k, msg), [Message(msg, [IU32(k.chan.remote)])])
  {
    hide SendPacket;
    hide Answers;
    hide Message;
    MessageOne(msg, IU32(k.chan.remote));
    SendAnswers(env, k, [msg] + PutU32(k.chan.remote));
  }

  /** RFC 4254 section 5.4: a request on the open channel takes effect, and is answered, if it wants to be, by success (99) or
      failure (100), addressed to the client's number of the channel. */
  lemma RequestAnswered(env: Env, k: Core, p: seq<byte>)
    requires Listening(k) && Is(p, 98)
    ensures var (got, end) := RAll(RInit(p[1..]), [WORD, NAME, FLAG]);
      var (k1, r) := (Heard(k, p), Deliver(env, k, p));
      var (chan, granted) := Granted(k.chan, got[1], end);
      if !k.state.StConn? then Refuses(env, k1, r, 2, "channel before auth")
      else if end.err || got[0] != IU32(0) || !k.chan.open then Refuses(env, k1, r, 2, "bad CHANNEL_REQUEST")
      else Answers(env, k1.(chan := chan), r,
                   if got[2] != IByte(0) then [Message(if granted then 99 else 100, [IU32(chan.remote)])] else [])
  {
    hide RStr;
    hide RU32;
    hide RByte;
    hide SendChannelReply;
    hide RequestEffect;
    hide Granted;
    hide Fail;
    hide Answers;
    hide Refuses;
    hide Message;
    var k1 := Heard(k, p);
    ReadThree(RInit(p[1..]), WORD, NAME, FLAG);
    var (got, end) := RAll(RInit(p[1..]), [WORD, NAME, FLAG]);
    EffectIsGranted(k.chan, Text(got[1]), end);
    var k2 := k1.(chan := Granted(k.chan, got[1], end).0);
    FailRefuses(env, k1, 2, "channel before auth");
    FailRefuses(env, k1, 2, "bad CHANNEL_REQUEST");
    ReplyAnswers(env, k2, 99);
    ReplyAnswers(env, k2, 100);
    Silent(env, k2);
    assert Deliver(env, k, p) == OnChannelRequest(env, k1, p);
  }

  /** RFC 4254 section 5.2: data for channel 0 goes into the ring as far as there is room. */
  lemma DataAnswered(env: Env, k: Core, p: seq<byte>)
    requires Listening(k) && Is(p, 94) && |k.ring| <= 65535
    ensures var (got, end) := RAll(RInit(p[1..]), [WORD, NAME]);
      var (k1, r, d) := (Heard(k, p), Deliver(env, k, p), Text(got[1]));
      var n := if |d| <= 65535 - |k.ring| then |d| else 65535 - |k.ring|;
      if got[0] != IU32(0) || !k.chan.open then Refuses(env, k1, r, 2, "bad channel")
      else if end.err then Refuses(env, k1, r, 2, "bad CHANNEL_DATA")
      else r == Ret(k1.(ring := k.ring + d[..n],
                        hist := k1.hist.(dataIn := k.hist.dataIn + d, lost := k.hist.lost + (|d| - n))), true)
  {
    hide RStr;
    hide RU32;
    hide Fail;
    hide Refuses;
    var k1 := Heard(k, p);
    ReadTwo(RInit(p[1..]), WORD, NAME);
    FailRefuses(env, k1, 2, "bad channel");
    FailRefuses(env, k1, 2, "bad CHANNEL_DATA");
    assert Deliver(env, k, p) == OnChannelData(env, k1, p);
  }

  /** An adjust is added to the window modulo 2^32; one that cannot be read changes nothing. */
  lemma AdjustAnswered(env: Env, k: Core, p: seq<byte>)
    requires Listening(k) && Is(p, 93)
    ensures var (got, end) := RAll(RInit(p[1..]), [WORD, WORD]);
      var (k1, r, n) := (Heard(k, p), Deliver(env, k, p), Number(got[1]));
      if end.err then r == Ret(k1, true)
      else
        && r.ok && r.k == k1.(chan := r.k.chan, hist := r.k.hist)
        && r.k.chan == k.chan.(window := (k.chan.window + n) % 0x1_0000_0000)
        && r.k.hist == k1.hist.(granted := k.hist.granted + n,
                                wrapped := k.hist.wrapped || k.chan.window + n >= 0x1_0000_0000)
  {
    hide RU32;
    var k1 := Heard(k, p);
    ReadTwo(RInit(p[1..]), WORD, WORD);
    assert Deliver(env, k, p) == OnWindowAdjust(k1, p);
  }

  /** RFC 4254 section 5.3: the client's close is answered by one, unless ours has gone out already. */
  lemma CloseAnswered(env: Env, k: Core, p: seq<byte>)
    requires Listening(k) && Is(p, 97)
    ensures var (k1, r) := (Heard(k, p), Deliver(env, k, p));
      var first := k.chan.open && !k.chan.closeSent;
      var k2 := k1.(chan := k.chan.(closeRecv := true, closeSent := k.chan.closeSent || first));
      r.ok && Adds(k2, r.k, if first then [Message(97, [IU32(k.chan.remote)])] else [])
      && SentOnly(k2, r.k) && r.k.chan == k2.chan && (Draws(env, k2) ==> Draws(env, r.k))
  {
    hide SendChannelReply;
    hide Message;
    hide SentOnly;
    var k1 := Heard(k, p);
    var k2 := k1.(chan := k.chan.(closeRecv := true, closeSent := true));
    ReplyAnswers(env, k2, 97);
    Silent(env, k1.(chan := k.chan.(closeRecv := true)));
    assert Deliver(env, k, p) == OnChannelClose(env, k1);
  }

  // ---- the rest ----

  /** Nothing is answered to what asks for nothing: IGNORE, UNIMPLEMENTED, DEBUG, EXT_INFO, extended data, end of file. */
  lemma NothingAnswered(env: Env, k: Core, p: seq<byte>)
    requires Listening(k) && p != [] && p[0] in {2, 3, 4, 7, 95, 96}
    ensures var (k1, r) := (Heard(k, p), Deliver(env, k, p));
      r == Ret(if p[0] == 96 then k1.(chan := k.chan.(remoteEof := true)) else k1, true)
  {
  }

  /** A DISCONNECT ends the connection without an answer, an empty payload with one. */
  lemma Ended(env: Env, k: Core, p: seq<byte>)
    requires Listening(k)
    ensures Is(p, 1) ==> Deliver(env, k, p) == Ret(Heard(k, p).(state := StClosed), false)
    ensures p == [] ==> Refuses(env, Heard(k, p), Deliver(env, k, p), 2, "empty payload")
  {
    hide Fail;
    hide Refuses;
    FailRefuses(env, Heard(k, p), 2, "empty payload");
  }

  /** A wrongly guessed first packet of a key exchange (RFC 4253 section 7) is passed over, whatever it is, and only once. */
  lemma GuessPassed(env: Env, k: Core, p: seq<byte>)
    requires Listening(k) && p != [] && k.ignoreNext && 30 <= p[0] <= 49
    ensures var (k1, r) := (Heard(k, p), Deliver(env, k, p));
      r.ok && r.k == k1.(ignoreNext := false, hist := r.k.hist) && r.k.hist == k1.hist.(dropped := k.hist.dropped + 1)
  {
  }

  const KNOWN: set<int> := {1, 2, 3, 4, 5, 7, 20, 21, 30, 50, 80, 90, 93, 94, 95, 96, 97, 98}

  /** RFC 4253 section 11.4: everything else is answered by UNIMPLEMENTED with the number of the packet it came in, one less
      than the number of the next. */
  lemma OtherAnswered(env: Env, k: Core, p: seq<byte>)
    requires Listening(k) && p != [] && p[0] !in KNOWN && !(k.ignoreNext && 30 <= p[0] <= 49)
    ensures Answers(env, Heard(k, p), Deliver(env, k, p), [Message(3, [IU32((k.inDir.seqNo - 1) % 0x1_0000_0000)])])
  {
    hide SendPacket;
    hide Answers;
    hide Message;
    var k1 := Heard(k, p);
    MessageOne(3, IU32((k.inDir.seqNo - 1) % 0x1_0000_0000));
    SendAnswers(env, k1, [MSG_UNIMPLEMENTED] + PutU32(Low32(k1.inDir.seqNo - 1)));
    assert Deliver(env, k, p) == OnOther(env, k1);
  }

  // ---- what goes wrong in the key exchange and below it ----

  /** Packets of a key exchange out of their turn, and the two ways in which X25519 can fail. */
  lemma KexRefused(env: Env, k: Core, p: seq<byte>)
    requires Listening(k) && p != [] && !(k.ignoreNext && 30 <= p[0] <= 49)
    ensures var (k1, r) := (Heard(k, p), Deliver(env, k, p));
      && (p[0] == 20 && (k.kex.KxWaitDh? || k.kex.KxWaitNewKeys?) ==> Refuses(env, k1, r, 2, "unexpected KEXINIT"))
      && (p[0] == 21 && !k.kex.KxWaitNewKeys? ==> Refuses(env, k1, r, 2, "unexpected NEWKEYS"))
      && (p[0] == 30 && !k.kex.KxWaitDh? ==> Refuses(env, k1, r, 2, "unexpected KEXDH_INIT"))
  {
    hide Fail;
    hide Refuses;
    hide OnServiceRequest;
    hide OnOther;
    hide HandleService;
    hide Negotiate;
    hide SendKexInit;
    hide RStr;
    hide FinishKex;
    FailRefuses(env, Heard(k, p), 2, "unexpected KEXINIT");
    FailRefuses(env, Heard(k, p), 2, "unexpected NEWKEYS");
    FailRefuses(env, Heard(k, p), 2, "unexpected KEXDH_INIT");
  }

  lemma DhRefused(env: Env, k: Core, p: seq<byte>)
    requires Listening(k) && Is(p, 30) && !k.ignoreNext && k.kex.KxWaitDh?
    ensures var (got, end) := RAll(RInit(p[1..]), [NAME]);
      var (k1, r, qc) := (Heard(k, p), Deliver(env, k, p), Text(got[0]));
      var priv := Random(env, k.drawn, 32);
      if end.err || |qc| != 32 then Refuses(env, k1, r, 3, "bad KEXDH_INIT")
      else if env.dhShared(priv, qc).None? then Refuses(env, k1.(drawn := k.drawn + 32), r, 3, "curve25519 failure")
      else r == FinishKex(env, k1.(drawn := k.drawn + 32), qc, env.dhPublic(priv), env.dhShared(priv, qc).value)
  {
    hide Fail;
    hide Refuses;
    hide FinishKex;
    hide RStr;
    ReadOne(RInit(p[1..]), NAME);
    FailRefuses(env, Heard(k, p), 3, "bad KEXDH_INIT");
    FailRefuses(env, Heard(k, p).(drawn := k.drawn + 32), 3, "curve25519 failure");
    assert Deliver(env, k, p) == OnKexDhInit(env, Heard(k, p), p);
  }

  /** A record that cannot be taken ends the connection with the reason for it. */
  lemma RecordRefused(env: Env, c: Conn)
    requires ConnOk(c) && Listening(c.core)
    ensures var (x, res) := RxStep(env, RxOf(c));
      var (c1, n) := Packet(env, c);
      var (k1, r) := (c.core.(inDir := x.dir), Ret(c1.core, false));
      && (res.NeedMore? ==> n == 0 && c1.core == k1)
      && (res.BadLength? ==> n == -1 && Refuses(env, k1, r, 2, "bad packet length"))
      && (res.BadMac? ==> n == -1 && Refuses(env, k1, r, 5, "MAC mismatch"))
      && (res.BadPadding? ==> n == -1 && Refuses(env, k1, r, 2, "bad padding"))
      && (res.Got? ==> c1.core == Deliver(env, k1, res.payload).k)
  {
    hide RxStep;
    hide Deliver;
    hide Disconnect;
    hide Adds;
    hide SentOnly;
    var k1 := c.core.(inDir := RxStep(env, RxOf(c)).0.dir);
    FailRefuses(env, k1, 2, "bad packet length");
    FailRefuses(env, k1, 5, "MAC mismatch");
    FailRefuses(env, k1, 2, "bad padding");
  }

  // ---- the greeting ----

  /** RFC 4253 section 4.2: one line, ended by LF with or without CR, of which version 2.0 or 1.99 is the beginning. Lines
      before it that do not begin with SSH- are passed over; another version ends the connection. */
  lemma LineHeard(env: Env, c: Conn, line: seq<byte>, end: seq<byte>, rest: seq<byte>)
    requires ConnOk(c) && c.core.state.StVersion? && 10 !in line && (line != [] ==> line[|line| - 1] != 13)
    requires (end == [13, 10] || end == [10]) && c.buf == line + end + rest
    ensures var (c1, n) := VersionLine(env, c);
      if |line| < 4 || line[..4] != Ascii("SSH-") then n == 1 && c1 == c.(buf := rest)
      else if (|line| >= 8 && line[..8] == Ascii("SSH-1.99")) || (|line| >= 8 && line[..7] == Ascii("SSH-2.0")) then
        var r := SendKexInit(env, c.core.(version := line, state := StKex, kex := KxWaitKexInit));
        c.core.kexInitSent || (c1 == c.(core := r.k, buf := rest) && n == if r.ok then 1 else -1)
      else n == -1 && Refuses(env, c.core, Ret(c1.core, false), 2, "only SSH 2.0 is supported")
  {
    hide Disconnect;
    hide SendKexInit;
    hide Refuses;
    FailRefuses(env, c.core, 2, "only SSH 2.0 is supported");
    LineFound(line, end, rest);
  }

  /** Without a line end yet the server waits, up to 254 bytes. */
  lemma LineAwaited(env: Env, c: Conn)
    requires ConnOk(c) && c.core.state.StVersion? && 10 !in c.buf
    ensures var (c1, n) := VersionLine(env, c);
      if |c.buf| < 255 then n == 0 && c1 == c
      else n == -1 && Refuses(env, c.core, Ret(c1.core, false), 2, "version line too long")
  {
    hide Disconnect;
    hide TakeVersion;
    hide Refuses;
    FailRefuses(env, c.core, 2, "version line too long");
    LineEndIsThere(c.buf);
  }

  lemma LineEndIsThere(b: seq<byte>)
    ensures LfAt(b, 0) < |b| ==> 10 in b
  {
    var i := LfAt(b, 0);
    assert i < |b| ==> b[i] in b;
  }

  lemma LineFound(line: seq<byte>, end: seq<byte>, rest: seq<byte>)
    requires 10 !in line && (line != [] ==> line[|line| - 1] != 13) && (end == [13, 10] || end == [10])
    ensures var b := line + end + rest;
      var i := LfAt(b, 0);
      i < |b| && LineOf(b, i) == line && b[i + 1..] == rest
  {
    var b := line + end + rest;
    var i := |line| + |end| - 1;
    assert forall j :: 0 <= j < |line| ==> b[j] == line[j] && line[j] in line;
    assert b[i] == end[|end| - 1] == 10 && (|end| == 2 ==> b[|line|] == end[0] == 13);
    assert forall j :: 0 <= j < i ==> b[j] != 10;
    LfIs(b, i);
    assert b[..|line|] == line;
    assert |end| == 1 && |line| > 0 ==> b[i - 1] == line[|line| - 1];
  }

  lemma LfIs(b: seq<byte>, i: nat)
    requires i < |b| && b[i] == 10 && forall j :: 0 <= j < i ==> b[j] != 10
    ensures LfAt(b, 0) == i
  {
  }

  // ---- what the calls say ----

  /** A read gives back to the client's window what has been taken since the last time, once that is half a window and no key
      exchange is open: to the client's number, and exactly as much. */
  lemma ReadSays(env: Env, k: Core, max: nat)
    requires k.ring != [] && !k.state.StClosed?
    ensures var (n, r) := (if max <= |k.ring| then max else |k.ring|, ReadRing(env, k, max));
      var total := (k.consumed + n) % 0x1_0000_0000;
      && r.ring == k.ring[n..] && r.hist.dataRead == k.hist.dataRead + k.ring[..n]
      && (if total >= 16384 && CanSendNow(k) then
            Adds(k, r, [Message(93, [IU32(k.chan.remote), IU32(total)])]) && (r.state.StClosed? || r.consumed == 0)
          else r.hist.sent == k.hist.sent && r.consumed == total)
  {
    hide SendPacket;
    hide Message;
    hide PutU32;
    var k1 := TakeRing(k, Taken(k, max));
    MessageTwo(93, IU32(k1.chan.remote), IU32(k1.consumed));
    SendAnswers(env, k1, WindowAdjustMsg(k1));
  }

  /** Closing says three things to the client's channel: the exit status, end of file, and close (RFC 4254 sections 6.10 and
      5.3), unless the socket refuses one; then those up to it. */
  lemma CloseSays(env: Env, k: Core, status: uint32)
    requires ClosesChannel(k)
    ensures var (r, to) := (CloseChannel(env, k, status), IU32(k.chan.remote));
      var all := [Message(98, [to, IStr(Ascii("exit-status")), IByte(0), IU32(status)]), Message(96, [to]), Message(97, [to])];
      && r.chan == k.chan.(closeSent := true)
      && if r.state.StClosed? then exists n :: 1 <= n <= 3 && Adds(k, r, all[..n]) else r.state.StConn? && Adds(k, r, all)
  {
    hide SendPacket;
    hide SendChannelReply;
    hide PutU32;
    hide Str;
    hide Message;
    hide SentOnly;
    var to := IU32(k.chan.remote);
    var status98 := Message(98, [to, IStr(Ascii("exit-status")), IByte(0), IU32(status)]);
    var all := [status98, Message(96, [to]), Message(97, [to])];
    MessageFour(98, to, IStr(Ascii("exit-status")), IByte(0), IU32(status));
    StatusSize(status);
    SendAnswers(env, k, status98);
    var r1 := SendPacket(env, k, status98);
    var k2 := SendChannelReply(env, r1.k, 96).k;
    var k3 := SendChannelReply(env, k2, 97).k;
    assert all[..1] == [status98] && all[..2] == [status98] + [Message(96, [to])] && all[..3] == all == all[..2] + [Message(97, [to])];
    ReplyOrNot(env, r1.k, 96);
    ReplyOrNot(env, k2, 97);
  }

  lemma StatusSize(status: uint32)
    ensures |[MSG_CHANNEL_REQUEST] + PutU32(0) + Str(Ascii("exit-status")) + [0] + PutU32(status)| == 25
  {
  }

  /** A closed connection says nothing more. */
  lemma ReplyOrNot(env: Env, k: Core, n: byte)
    requires n >= 32
    ensures var r := SendChannelReply(env, k, n).k;
      && r.chan == k.chan
      && (if k.state.StClosed? then r == k else Adds(k, r, [Message(n, [IU32(k.chan.remote)])]) && (r.state == k.state || r.state.StClosed?))
  {
    hide Message;
    hide Adds;
    if !k.state.StClosed? {
      hide SendPacket;
      ReplyAnswers(env, k, n);
    }
  }

  /** Giving up says so: reason 11, with a handshake not finished in time or a session at its end. */
  lemma GiveUpSays(env: Env, k: Core, timeout: bool)
    requires !k.state.StClosed?
    ensures Refuses(env, k, Ret(Disconnect(env, k, DISC_BY_APPLICATION, GiveUpNote(timeout)), false), 11,
                    if timeout then "handshake timeout" else "session ended")
  {
    hide Disconnect;
    hide Refuses;
    FailRefuses(env, k, 11, GiveUpNote(timeout));
  }
}
