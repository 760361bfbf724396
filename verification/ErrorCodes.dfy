/**
 Error correlation codes (server/crates/arachnea-core/src/error_code.rs).

 A generator keeps the last printed pair of a millisecond and a two-digit
 sequence, and prints `ARACHNEA_E{millis}{sequence:02}`. The clock is a
 parameter of each call: nothing forces two readings to be ordered.
 */
module ErrorCodes {
  import opened Decimals

  /** The generator state, which is also the pair printed by the last call. */
  datatype Stamp = Stamp(millis: int, sequence: nat)

  const START := Stamp(0, 0)
  const PREFIX := "ARACHNEA_E"

  predicate Printable(s: Stamp) {
    s.sequence <= 99
  }

  function Next(s: Stamp, clock: int): Stamp {
    if clock == s.millis then
      if s.sequence + 1 > 99 then Stamp(s.millis + 1, 0) else Stamp(s.millis, s.sequence + 1)
    else
      Stamp(clock, 0)
  }

  function Print(s: Stamp): string
    requires Printable(s)
  {
    PREFIX + Decimal(s.millis) + TwoDigits(s.sequence)
  }

  ghost predicate Before(a: Stamp, b: Stamp) {
    a.millis < b.millis || (a.millis == b.millis && a.sequence < b.sequence)
  }

  /** The stamps printed by successive calls, one for each clock reading. */
  ghost function Issue(s: Stamp, clocks: seq<int>): (out: seq<Stamp>)
    ensures |out| == |clocks|
    decreases |clocks|
  {
    if clocks == [] then [] else [Next(s, clocks[0])] + Issue(Next(s, clocks[0]), clocks[1..])
  }

  /** No reading is below the millisecond stored when it is taken. */
  ghost predicate ClockKeepsUp(s: Stamp, clocks: seq<int>)
    decreases |clocks|
  {
    clocks != [] ==> s.millis <= clocks[0] && ClockKeepsUp(Next(s, clocks[0]), clocks[1..])
  }

  ghost predicate StrictlyIncreasing(out: seq<Stamp>) {
    forall i, j | 0 <= i < j < |out| :: Before(out[i], out[j])
  }

  lemma {:induction false} IssueStaysPrintable(s: Stamp, clocks: seq<int>)
    requires Printable(s)
    ensures forall k | 0 <= k < |clocks| :: Printable(Issue(s, clocks)[k])
    decreases |clocks|
  {
    if clocks != [] {
      IssueStaysPrintable(Next(s, clocks[0]), clocks[1..]);
    }
  }

  /** The printed text determines the millisecond and the sequence. */
  lemma PrintInjective(a: Stamp, b: Stamp)
    requires Printable(a) && Printable(b)
    ensures Print(a) == Print(b) <==> a == b
  {
    if Print(a) == Print(b) {
      assert Print(a)[|PREFIX|..] == Decimal(a.millis) + TwoDigits(a.sequence);
      assert Print(b)[|PREFIX|..] == Decimal(b.millis) + TwoDigits(b.sequence);
      var body := Print(a)[|PREFIX|..];
      assert Decimal(a.millis) == body[..|body| - 2] == Decimal(b.millis);
      assert TwoDigits(a.sequence) == body[|body| - 2..] == TwoDigits(b.sequence);
      DecimalInjective(a.millis, b.millis);
      TwoDigitsInjective(a.sequence, b.sequence);
    }
  }

  /** Read as one number, the digits after the prefix are `100 * millis + sequence`. */
  lemma PrintedNumber(s: Stamp)
    requires Printable(s) && 0 <= s.millis
    ensures NumberOf(Print(s)[|PREFIX|..]) == 100 * s.millis + s.sequence
  {
    assert Print(s)[|PREFIX|..] == Decimal(s.millis) + TwoDigits(s.sequence);
    NumberOfTwoMoreDigits(Decimal(s.millis), s.sequence);
    NumberOfDigits(s.millis);
  }

  lemma ConsIncreasing(head: Stamp, tail: seq<Stamp>)
    requires tail != []
    ensures StrictlyIncreasing([head] + tail) <==> Before(head, tail[0]) && StrictlyIncreasing(tail)
  {
    var all := [head] + tail;
    assert all[0] == head && all[1] == tail[0] && all[1..] == tail;
    assert forall i | 0 < i < |all| :: all[i] == tail[i - 1];
    if StrictlyIncreasing(all) {
      assert Before(all[0], all[1]);
      forall i, j | 0 <= i < j < |tail| ensures Before(tail[i], tail[j]) {
        assert Before(all[i + 1], all[j + 1]);
      }
    }
  }

  /**
   The codes of a run, the stored one included, strictly increase exactly when
   no clock reading is below the stored millisecond.
   */
  lemma {:induction false} IncreasingIffClockKeepsUp(s: Stamp, clocks: seq<int>)
    requires Printable(s)
    ensures StrictlyIncreasing([s] + Issue(s, clocks)) <==> ClockKeepsUp(s, clocks)
    decreases |clocks|
  {
    if clocks != [] {
      var next := Next(s, clocks[0]);
      IncreasingIffClockKeepsUp(next, clocks[1..]);
      ConsIncreasing(s, [next] + Issue(next, clocks[1..]));
      assert [s] + Issue(s, clocks) == [s] + ([next] + Issue(next, clocks[1..]));
    }
  }

  /** While the clock keeps up, no two calls print the same text. */
  lemma CodesAreDistinct(s: Stamp, clocks: seq<int>, i: nat, j: nat)
    requires Printable(s) && ClockKeepsUp(s, clocks) && i < j < |clocks|
    ensures Printable(Issue(s, clocks)[i]) && Printable(Issue(s, clocks)[j])
    ensures Print(Issue(s, clocks)[i]) != Print(Issue(s, clocks)[j])
  {
    IssueStaysPrintable(s, clocks);
    IncreasingIffClockKeepsUp(s, clocks);
    var all := [s] + Issue(s, clocks);
    assert Before(all[i + 1], all[j + 1]);
    PrintInjective(Issue(s, clocks)[i], Issue(s, clocks)[j]);
  }

  // --- Uniqueness ----------------------------------------------------------

  ghost predicate AllDistinct(out: seq<Stamp>) {
    forall i, j | 0 <= i < j < |out| :: out[i] != out[j]
  }

  /** The call resets to another millisecond or overflows into the next one. */
  predicate StartsMillisecond(s: Stamp, clock: int) {
    clock != s.millis || s.sequence >= 99
  }

  lemma StartIff(s: Stamp, clock: int)
    ensures StartsMillisecond(s, clock) <==> Next(s, clock).sequence == 0
    ensures !StartsMillisecond(s, clock) ==> Next(s, clock) == Stamp(s.millis, s.sequence + 1)
  {
  }

  ghost predicate UsedMillisecond(issued: seq<Stamp>, millis: int) {
    exists i | 0 <= i < |issued| :: issued[i].millis == millis
  }

  /**
   The exception: a generator whose first reading is the millisecond it starts in
   never issued sequence 0 there. A call may enter it once, if the next one leaves it.
   */
  ghost predicate TouchesStart(issued: seq<Stamp>, next: Stamp, rest: seq<int>) {
    next == START && START !in issued && (rest != [] ==> rest[0] != START.millis)
  }

  /** Whenever a call starts a millisecond, no earlier code was issued in it, but for that exception. */
  ghost predicate EntersUnused(s: Stamp, issued: seq<Stamp>, clocks: seq<int>)
    decreases |clocks|
  {
    clocks != [] ==>
      var next := Next(s, clocks[0]);
      && (StartsMillisecond(s, clocks[0]) ==>
            !UsedMillisecond(issued, next.millis) || TouchesStart(issued, next, clocks[1..]))
      && EntersUnused(next, issued + [next], clocks[1..])
  }

  /** A code with a positive sequence comes with the one before it, or follows the pair the generator starts with. */
  ghost predicate Closed(issued: seq<Stamp>) {
    forall stamp | stamp in issued && stamp.sequence > 0 ::
      var before := Stamp(stamp.millis, stamp.sequence - 1); before in issued || before == START
  }

  /** The generator last issued `s`, or is new; the code after it is not issued, or the next call leaves its millisecond. */
  ghost predicate Ready(s: Stamp, issued: seq<Stamp>, clocks: seq<int>) {
    && (s in issued || s == START)
    && (Stamp(s.millis, s.sequence + 1) !in issued || (s == START && (clocks != [] ==> clocks[0] != START.millis)))
  }

  /** A used millisecond has issued its sequence 0, or it is the one the generator started in, and that issued sequence 1. */
  lemma {:induction false} FirstOfMillisecond(issued: seq<Stamp>, stamp: Stamp)
    requires Closed(issued) && stamp in issued
    ensures Stamp(stamp.millis, 0) in issued || (stamp.millis == START.millis && Stamp(START.millis, 1) in issued)
    decreases stamp.sequence
  {
    if stamp.sequence > 0 && Stamp(stamp.millis, stamp.sequence - 1) in issued {
      FirstOfMillisecond(issued, Stamp(stamp.millis, stamp.sequence - 1));
    }
  }

  lemma UsedIff(issued: seq<Stamp>, millis: int)
    requires Closed(issued)
    ensures UsedMillisecond(issued, millis) <==>
              Stamp(millis, 0) in issued || (millis == START.millis && Stamp(START.millis, 1) in issued)
  {
    if i :| 0 <= i < |issued| && issued[i].millis == millis {
      FirstOfMillisecond(issued, issued[i]);
    }
  }

  lemma DistinctSnoc(issued: seq<Stamp>, next: Stamp)
    ensures AllDistinct(issued + [next]) <==> AllDistinct(issued) && next !in issued
  {
    var all := issued + [next];
    assert forall i | 0 <= i < |issued| :: all[i] == issued[i];
    assert all[|issued|] == next;
  }

  lemma DistinctPrefix(a: seq<Stamp>, b: seq<Stamp>)
    ensures AllDistinct(a + b) ==> AllDistinct(a)
  {
    assert forall i | 0 <= i < |a| :: (a + b)[i] == a[i];
  }

  /** A code that is not issued keeps the codes closed. */
  lemma ClosedGrows(s: Stamp, issued: seq<Stamp>, clocks: seq<int>)
    requires clocks != [] && Closed(issued) && Ready(s, issued, clocks)
    ensures Closed(issued + [Next(s, clocks[0])])
  {
    StartIff(s, clocks[0]);
  }

  /** The step that decides: a code is issued again exactly where a millisecond is entered wrongly, now or by the next call. */
  lemma StepIsNew(s: Stamp, issued: seq<Stamp>, clocks: seq<int>)
    requires clocks != [] && Closed(issued) && Ready(s, issued, clocks)
    ensures var next, rest := Next(s, clocks[0]), clocks[1..];
            (StartsMillisecond(s, clocks[0]) ==> !UsedMillisecond(issued, next.millis) || TouchesStart(issued, next, rest))
            <==> next !in issued && Ready(next, issued + [next], rest)
  {
    var next, rest := Next(s, clocks[0]), clocks[1..];
    var after := Stamp(next.millis, next.sequence + 1);
    StartIff(s, clocks[0]);
    UsedIff(issued, next.millis);
    assert after in issued + [next] <==> after in issued;
    assert Closed(issued) && after in issued ==> next in issued || next == START;
  }

  /** A code after which the generator is not ready is followed by a repetition. */
  lemma NotReadyRepeats(issued: seq<Stamp>, next: Stamp, rest: seq<int>)
    requires Closed(issued) && next !in issued && !Ready(next, issued + [next], rest)
    ensures !AllDistinct(issued + [next] + Issue(next, rest))
  {
    var after := Stamp(next.millis, next.sequence + 1);
    assert after in issued && next == START && Next(next, rest[0]) == after;
    var all := issued + [next] + Issue(next, rest);
    var i :| 0 <= i < |issued| && issued[i] == after;
    assert all[i] == after == all[|issued| + 1];
  }

  lemma {:induction false} DistinctIffEntersUnused(s: Stamp, issued: seq<Stamp>, clocks: seq<int>)
    requires Closed(issued) && AllDistinct(issued) && Ready(s, issued, clocks)
    ensures AllDistinct(issued + Issue(s, clocks)) <==> EntersUnused(s, issued, clocks)
    decreases |clocks|
  {
    hide Ready, Closed, AllDistinct, TouchesStart, UsedMillisecond, StartsMillisecond;
    if clocks == [] {
      assert issued + Issue(s, clocks) == issued;
    } else {
      var next := Next(s, clocks[0]);
      var rest := Issue(next, clocks[1..]);
      assert issued + Issue(s, clocks) == issued + [next] + rest;
      StepIsNew(s, issued, clocks);
      DistinctSnoc(issued, next);
      DistinctPrefix(issued + [next], rest);
      ClosedGrows(s, issued, clocks);
      if next !in issued {
        if Ready(next, issued + [next], clocks[1..]) {
          DistinctIffEntersUnused(next, issued + [next], clocks[1..]);
        } else {
          NotReadyRepeats(issued, next, clocks[1..]);
        }
      }
    }
  }

  lemma NewIsReady(clocks: seq<int>)
    ensures Closed([]) && AllDistinct([]) && Ready(START, [], clocks)
  {
  }

  /**
   A new generator never repeats a code exactly when no reset and no overflow
   enters a millisecond in which an earlier call already issued one, whatever the
   readings; only sequence 0 of the starting millisecond may be issued late.
   */
  lemma CodesUniqueIff(clocks: seq<int>)
    ensures AllDistinct(Issue(START, clocks)) <==> EntersUnused(START, [], clocks)
  {
    NewIsReady(clocks);
    DistinctIffEntersUnused(START, [], clocks);
    assert [] + Issue(START, clocks) == Issue(START, clocks);
  }

  // --- A burst of calls within one millisecond -----------------------------

  function Burst(clock: int, n: nat): (clocks: seq<int>)
    ensures |clocks| == n && forall k | 0 <= k < n :: clocks[k] == clock
  {
    seq(n, _ => clock)
  }

  /** The stamp printed by call `k` of a burst: the generator cycles after 101 calls. */
  function BurstStamp(clock: int, k: nat): Stamp {
    if k % 101 == 100 then Stamp(clock + 1, 0) else Stamp(clock, k % 101)
  }

  lemma {:induction false} BurstCycle(clock: int, from: nat, n: nat, k: nat)
    requires k < n
    ensures Issue(BurstStamp(clock, from), Burst(clock, n))[k] == BurstStamp(clock, from + 1 + k)
    decreases n
  {
    var s := BurstStamp(clock, from);
    assert Next(s, clock) == BurstStamp(clock, from + 1);
    if k > 0 {
      assert Burst(clock, n)[1..] == Burst(clock, n - 1);
      BurstCycle(clock, from + 1, n - 1, k - 1);
    }
  }

  /** The position in the cycle at which a new generator starts. */
  function BurstStart(clock: int): nat {
    if clock == START.millis then 1 else 0
  }

  lemma BurstStamps(clock: int, n: nat, k: nat)
    requires k < n
    ensures Issue(START, Burst(clock, n))[k] == BurstStamp(clock, BurstStart(clock) + k)
  {
    if clock == START.millis {
      assert START == BurstStamp(clock, 0);
      BurstCycle(clock, 0, n, k);
    } else {
      assert Next(START, clock) == BurstStamp(clock, 0);
      if k > 0 {
        assert Burst(clock, n)[1..] == Burst(clock, n - 1);
        BurstCycle(clock, 0, n - 1, k - 1);
      }
    }
  }

  /**
   A new generator whose clock does not move prints distinct codes for exactly
   the first 101 calls: the overflow borrows the next millisecond once, then the
   unmoved clock resets it.
   */
  lemma BurstDistinctIff(clock: int, n: nat)
    ensures AllDistinct(Issue(START, Burst(clock, n))) <==> n <= 101
  {
    var out, start := Issue(START, Burst(clock, n)), BurstStart(clock);
    forall k: nat | k < n ensures out[k] == BurstStamp(clock, start + k) {
      BurstStamps(clock, n, k);
    }
    if n <= 101 {
      forall i: nat, j: nat | i < j < n ensures out[i] != out[j] {
        assert out[i] == BurstStamp(clock, start + i) && out[j] == BurstStamp(clock, start + j);
      }
    } else {
      assert out[0] == BurstStamp(clock, start) == BurstStamp(clock, start + 101) == out[101];
    }
  }

  // --- The generator -------------------------------------------------------

  class ErrorCodeGenerator {
    var lastMillis: int
    var sequence: nat

    ghost predicate Valid()
      reads this
    {
      Printable(Last())
    }

    ghost function Last(): Stamp
      reads this
    {
      Stamp(lastMillis, sequence)
    }

    constructor ()
      ensures Valid() && Last() == START
    {
      lastMillis, sequence := 0, 0;
    }

    method NextCode(clock: int) returns (code: string)
      requires Valid()
      modifies this
      ensures Valid() && Last() == Next(old(Last()), clock)
      ensures code == Print(Last())
    {
      if clock == lastMillis {
        sequence := sequence + 1;
        if sequence > 99 {
          lastMillis := lastMillis + 1;
          sequence := 0;
        }
      } else {
        lastMillis := clock;
        sequence := 0;
      }
      code := PREFIX + Decimal(lastMillis) + TwoDigits(sequence);
    }
  }
}
