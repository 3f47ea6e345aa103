/** What a connection is called over: a transport that delivers its bytes in pieces of any size, a stall of a millisecond,
    and a clock. All of it keeps a record, and the record is what the calls of the API are explained by. */
module Transport {
  import opened Bytes
  import opened Connection
  import opened Runtime

  const SPIN_US: nat := 1000

  /** What one read of the transport finds. */
  datatype Read = Chunk(data: seq<byte>) | Nothing | Gone

  /** How much a finite script still holds: reads and bytes together. */
  function Left(script: seq<Read>): nat {
    if script == [] then 0
    else 1 + (if script[0].Chunk? then |script[0].data| else 0) + Left(script[1..])
  }

  /** The bytes a script will deliver. */
  function BytesOf(script: seq<Read>): seq<byte> {
    if script == [] then []
    else (if script[0].Chunk? then script[0].data else []) + BytesOf(script[1..])
  }

  /** How often the script says that the transport is gone. */
  function Gones(script: seq<Read>): nat {
    if script == [] then 0 else (if script[0].Gone? then 1 else 0) + Gones(script[1..])
  }

  predicate Empty(r: Read) {
    r.Nothing? || r == Chunk([])
  }

  /** Reads have been made: entries are gone from the front, and the first of what is left may have been begun. */
  predicate Later(a: seq<Read>, b: seq<Read>) {
    |b| <= |a| &&
    (b == [] || (b[1..] == a[|a| - |b| + 1..] && (b[0] == a[|a| - |b|] || (b[0].Chunk? && b[0].data != []))))
  }

  /** Reads have been made up to one that found nothing. */
  predicate Dry(a: seq<Read>, b: seq<Read>) {
    b == [] || (|b| < |a| && b == a[|a| - |b|..] && Empty(a[|a| - |b| - 1]))
  }

  lemma LaterTransitive(a: seq<Read>, b: seq<Read>, c: seq<Read>)
    requires Later(a, b) && Later(b, c)
    ensures Later(a, c)
  {
    if c != [] && |c| < |b| {
      var n := |b| - |c|;
      assert b[n + 1..] == b[1..][n..] == a[|a| - |b| + 1..][n..] == a[|a| - |c| + 1..];
      assert b[n] == b[1..][n - 1] == a[|a| - |b| + 1..][n - 1] == a[|a| - |c|];
    }
  }

  lemma LaterDry(a: seq<Read>, b: seq<Read>, c: seq<Read>)
    requires Later(a, b) && Dry(b, c)
    ensures Dry(a, c)
  {
    if c != [] {
      var n := |b| - |c| - 1;
      assert c == b[1..][n..] == a[|a| - |b| + 1..][n..] == a[|a| - |c|..];
      if n > 0 {
        assert b[n] == b[1..][n - 1] == a[|a| - |b| + 1..][n - 1];
      }
    }
  }

  // ---- the record ----

  /** A moment: how many stalls have been made, and how often the clock has been read. */
  datatype Mark = Mark(stalls: nat, ticks: nat)

  /** Where the transport stands, what has happened to the connection and at what moments, the stalls made, and what the
      clock has said. */
  datatype Record = Record(script: seq<Read>, log: seq<Event>, marks: seq<Mark>, stalls: nat, clock: seq<nat>)

  function MarkOf(r: Record): Mark {
    Mark(r.stalls, |r.clock|)
  }

  /** The record after one more event. */
  function Noted(r: Record, e: Event): Record {
    r.(log := r.log + [e], marks := r.marks + [MarkOf(r)])
  }

  class Io {
    var script: seq<Read>
    ghost var log: seq<Event>
    ghost var marks: seq<Mark>
    ghost var stalls: nat
    ghost var clock: seq<nat>
    ghost const stream: seq<byte>      // all the transport ever delivers

    ghost function Past(): Record
      reads this
    {
      Record(script, log, marks, stalls, clock)
    }

    constructor (script: seq<Read>)
      ensures Past() == Record(script, [], [], 0, []) && stream == BytesOf(script)
    {
      this.script := script;
      log, marks, stalls, clock := [], [], 0, [];
      stream := BytesOf(script);
    }

    /** RtNow: seconds since some epoch, or 0 from a clock that does not work. Nothing else is known of it. */
    method Now() returns (t: nat)
      modifies `clock
      ensures clock == old(clock) + [t]
    {
      t := *;
      clock := clock + [t];
    }

    method Stall()
      modifies `stalls
      ensures stalls == old(stalls) + 1
    {
      stalls := stalls + 1;
    }
  }

  /** Why an event is in the log: input, or a transport that said so, or a call that is allowed. */
  predicate Explained(a: Record, b: Record, e: Event, calls: set<Event>) {
    e.Input? || (e.TransportLost? && Gones(b.script) < Gones(a.script)) || e in calls
  }

  /** The marks of the new events are moments between a and b. */
  predicate Between(a: Record, b: Record) {
    && |a.marks| == |a.log| && |b.marks| == |b.log| && a.marks <= b.marks
    && forall i :: |a.log| <= i < |b.log| ==>
         a.stalls <= b.marks[i].stalls <= b.stalls && |a.clock| <= b.marks[i].ticks <= |b.clock|
  }

  /** From a to b: the script moves forward, the records grow, and every new event is explained. */
  predicate Story(a: Record, b: Record, calls: set<Event>) {
    && Later(a.script, b.script) && Gones(b.script) <= Gones(a.script) && Between(a, b)
    && a.log <= b.log && a.stalls <= b.stalls && a.clock <= b.clock
    && forall e :: e in b.log[|a.log|..] ==> Explained(a, b, e, calls)
  }

  lemma StorySelf(a: Record, b: Record, calls: set<Event>)
    requires |a.marks| == |a.log| && a.clock <= b.clock && b == a.(clock := b.clock)
    ensures Story(a, b, calls)
  {
  }

  lemma StoryMore(a: Record, b: Record, calls: set<Event>, more: set<Event>)
    requires Story(a, b, calls) && calls <= more
    ensures Story(a, b, more)
  {
    hide Later;
  }

  /** One event more, and nothing read. */
  lemma StoryCall(a: Record, b: Record, e: Event, before: set<Event>, calls: set<Event>)
    requires Story(a, b, before) && before <= calls && e in calls
    ensures Story(a, Noted(b, e), calls)
  {
    hide Later;
    var c := Noted(b, e);
    assert c.log[|a.log|..] == b.log[|a.log|..] + [e];
  }

  lemma StoryDry(a: Record, b: Record, c: Record, calls: set<Event>)
    requires Story(a, b, calls) && Dry(b.script, c.script)
    ensures Dry(a.script, c.script)
  {
    hide Later;
    hide Dry;
    LaterDry(a.script, b.script, c.script);
  }

  lemma StoryOn(a: Record, b: Record, c: Record, x: set<Event>, y: set<Event>, calls: set<Event>)
    requires Story(a, b, x) && Story(b, c, y) && x <= calls && y <= calls
    ensures Story(a, c, calls)
  {
    hide Later;
    LaterTransitive(a.script, b.script, c.script);
    assert c.log[|a.log|..] == b.log[|a.log|..] + c.log[|b.log|..];
  }

  lemma StoryStep(a: Record, b: Record, e: Event, calls: set<Event>)
    requires Later(a.script, b.script) && Gones(b.script) <= Gones(a.script)
    requires |a.marks| == |a.log| && b == Noted(a, e).(script := b.script)
    requires Explained(a, b, e, calls)
    ensures Story(a, b, calls)
  {
    hide Later;
    assert b.log[|a.log|..] == [e];
  }

  // ---- waits that ran out ----

  /** Two readings of a working clock that are more than the limit and a second apart. */
  predicate Late(clock: seq<nat>, limitMs: nat) {
    exists i, j :: 0 <= i < j < |clock| && clock[i] != 0 && clock[i] < clock[j] && (clock[j] - clock[i]) * 1000 > limitMs + 1000
  }

  /** A wait that began at m has run out at b: by its spins, or by the clock after some. */
  predicate Spent(m: Mark, b: Record, limitMs: nat) {
    m.stalls + SpinLimit(SPIN_US, limitMs) <= b.stalls ||
    (m.stalls + 64 <= b.stalls && m.ticks <= |b.clock| && Late(b.clock[m.ticks..], limitMs))
  }

  lemma SpentEarlier(m: Mark, n: Mark, b: Record, limitMs: nat)
    requires Spent(n, b, limitMs) && m.stalls <= n.stalls && m.ticks <= n.ticks
    ensures Spent(m, b, limitMs)
  {
    if n.stalls + SpinLimit(SPIN_US, limitMs) > b.stalls {
      var late := b.clock[n.ticks..];
      var i, j :| 0 <= i < j < |late| && late[i] != 0 && late[i] < late[j] && (late[j] - late[i]) * 1000 > limitMs + 1000;
      var d := n.ticks - m.ticks;
      var all := b.clock[m.ticks..];
      assert all[d + i] == late[i] && all[d + j] == late[j];
    }
  }

  /** What makes a wait begin afresh: bytes from the client, or a packet of data sent. */
  datatype Restart = OnBytes | OnWrite

  predicate Restarts(r: Restart, e: Event) {
    match r
    case OnBytes => e.Input? && e.data != []
    case OnWrite => e.WriteCall?
  }

  /** The moment of the last of the first n events that restarts a wait, or the moment a if none after a does. */
  function LastRestart(r: Restart, a: Record, b: Record, n: nat): Mark {
    if n <= |a.log| || n > |b.log| || n > |b.marks| then MarkOf(a)
    else if Restarts(r, b.log[n - 1]) then b.marks[n - 1]
    else LastRestart(r, a, b, n - 1)
  }

  function Since(r: Restart, a: Record, b: Record): Mark {
    LastRestart(r, a, b, |b.log|)
  }

  lemma {:induction false} LastRestartBetween(r: Restart, a: Record, b: Record, n: nat)
    requires Between(a, b) && a.stalls <= b.stalls && a.clock <= b.clock
    ensures var m := LastRestart(r, a, b, n);
      a.stalls <= m.stalls <= b.stalls && |a.clock| <= m.ticks <= |b.clock|
    decreases n
  {
    if n > 0 {
      LastRestartBetween(r, a, b, n - 1);
    }
  }

  lemma {:induction false} LastRestartKept(r: Restart, a: Record, b: Record, c: Record, n: nat)
    requires b.log <= c.log && b.marks <= c.marks && |b.marks| == |b.log|
    requires forall e :: e in c.log[|b.log|..] ==> !Restarts(r, e)
    requires |b.log| <= n <= |c.log| == |c.marks| && |a.log| <= |b.log|
    ensures LastRestart(r, a, c, n) == LastRestart(r, a, b, |b.log|)
    decreases n
  {
    if n > |b.log| {
      assert c.log[|b.log|..][n - 1 - |b.log|] == c.log[n - 1];
      LastRestartKept(r, a, b, c, n - 1);
    } else {
      LastRestartSame(r, a, b, c, n);
    }
  }

  lemma {:induction false} LastRestartSame(r: Restart, a: Record, b: Record, c: Record, n: nat)
    requires b.log <= c.log && b.marks <= c.marks && |b.marks| == |b.log| && n <= |b.log|
    ensures LastRestart(r, a, c, n) == LastRestart(r, a, b, n)
    decreases n
  {
    if n > 0 {
      LastRestartSame(r, a, b, c, n - 1);
    }
  }

  /** A stretch without a restart leaves the beginning of the wait where it was. */
  lemma SinceKept(r: Restart, a: Record, b: Record, c: Record, x: set<Event>, y: set<Event>)
    requires Story(a, b, x) && Story(b, c, y) && forall e :: e in c.log[|b.log|..] ==> !Restarts(r, e)
    ensures Since(r, a, c) == Since(r, a, b)
  {
    hide Later;
    LastRestartKept(r, a, b, c, |c.log|);
  }

  lemma SinceBetween(r: Restart, a: Record, b: Record, calls: set<Event>)
    requires Story(a, b, calls)
    ensures var m := Since(r, a, b);
      a.stalls <= m.stalls <= b.stalls && |a.clock| <= m.ticks <= |b.clock|
  {
    hide Later;
    LastRestartBetween(r, a, b, |b.log|);
  }

  lemma LateAt(clock: seq<nat>, from: nat, i: nat, limitMs: nat)
    requires from <= i < |clock| - 1
    requires var (start, now) := (clock[i], clock[|clock| - 1]);
      start != 0 && start < now && (now - start) * 1000 > limitMs + 1000
    ensures Late(clock[from..], limitMs)
  {
    var s := clock[from..];
    assert s[i - from] == clock[i] && s[|s| - 1] == clock[|clock| - 1];
  }

  /** RtTimedOut. The clock is looked at on every 64th spin only. */
  method RtTimedOut(io: Io, startSec: nat, spins: nat, limitMs: nat, ghost since: nat) returns (t: bool)
    requires limitMs * 4000 + SPIN_US < TWO64 && 0 < spins <= SpinLimit(SPIN_US, limitMs)
    requires since < |io.clock| && io.clock[since] == startSec
    modifies io`clock
    ensures old(io.clock) <= io.clock
    ensures spins == SpinLimit(SPIN_US, limitMs) ==> t
    ensures t && spins < SpinLimit(SPIN_US, limitMs) ==>
      spins >= 64 && forall from :: 0 <= from <= since ==> Late(io.clock[from..], limitMs)
  {
    hide TimedOut;
    var now := 0;
    if startSec != 0 && spins % 64 == 0 {
      now := io.Now();
    }
    t := TimedOut(startSec, spins, SPIN_US, limitMs, now);
    SpinsEnd(startSec, spins, SPIN_US, limitMs, now);
    if t && spins < SpinLimit(SPIN_US, limitMs) {
      OnlyLate(startSec, spins, limitMs, now);
      forall from | 0 <= from <= since
        ensures Late(io.clock[from..], limitMs)
      {
        LateAt(io.clock, from, since, limitMs);
      }
    }
  }

  /** Before the spins are used up only the clock can end a wait. */
  lemma OnlyLate(startSec: nat, spins: nat, limitMs: nat, now: nat)
    requires limitMs * 4000 + SPIN_US < TWO64 && 0 < spins < SpinLimit(SPIN_US, limitMs)
    requires TimedOut(startSec, spins, SPIN_US, limitMs, now)
    ensures startSec != 0 && spins % 64 == 0 && startSec < now && (now - startSec) * 1000 > limitMs + 1000
  {
    SpinsEnd(0, spins, SPIN_US, limitMs, now);
    SmallLow64(limitMs + 1000);
    var n := (now - startSec) * 1000;
    if now > startSec {
      assert Low64(n) <= n;
    }
  }

  /** One turn of a wait that has found nothing: a stall, and whether that was the last. */
  method WaitMore(io: Io, start: nat, waited: nat, limitMs: nat, ghost since: nat, ghost from: Mark) returns (out: bool)
    requires limitMs * 4000 + SPIN_US < TWO64 && waited < SpinLimit(SPIN_US, limitMs)
    requires from.ticks <= since < |io.clock| && io.clock[since] == start && from.stalls + waited <= io.stalls
    modifies io`stalls, io`clock
    ensures io.stalls == old(io.stalls) + 1 && old(io.clock) <= io.clock
    ensures out <== waited + 1 == SpinLimit(SPIN_US, limitMs)
    ensures out ==> Spent(from, io.Past(), limitMs)
  {
    hide Late;
    io.Stall();
    out := RtTimedOut(io, start, waited + 1, limitMs, since);
  }

  /** Stalls and looks at the clock are part of any story. */
  lemma StoryWaits(a: Record, b: Record, c: Record, calls: set<Event>)
    requires Story(a, b, calls) && c == b.(stalls := c.stalls, clock := c.clock) && b.stalls <= c.stalls && b.clock <= c.clock
    ensures Story(a, c, calls)
    ensures forall r :: Since(r, a, c) == Since(r, a, b)
  {
    hide Later;
    forall r
      ensures Since(r, a, c) == Since(r, a, b)
    {
      LastRestartSame(r, a, b, c, |c.log|);
    }
  }

  lemma SinceStart(r: Restart, a: Record, b: Record)
    requires b.log == a.log
    ensures Since(r, a, b) == MarkOf(a)
  {
  }

  lemma SinceNoted(r: Restart, a: Record, b: Record, e: Event, calls: set<Event>)
    requires Story(a, b, calls) && !Restarts(r, e)
    ensures Since(r, a, Noted(b, e)) == Since(r, a, b)
  {
    hide Later;
    LastRestartSame(r, a, b, Noted(b, e), |b.log|);
  }
}
