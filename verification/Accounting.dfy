/** Conservative storage observations: what a cleanup may be credited for. */
module Accounting {
  import opened Prelude

  const MAX_U128: nat := 0xFFFF_FFFF_FFFF_FFFF_FFFF_FFFF_FFFF_FFFF

  /** Available bytes, and when they were read, in nanoseconds. */
  datatype Sample = Sample(available: nat, at: nat)

  /** One capacity observation: three samples in a row. */
  type Samples = s: seq<Sample> | |s| == 3 witness [Sample(0, 0), Sample(0, 0), Sample(0, 0)]

  function Maximum(s: Samples): (m: nat)
    ensures forall i :: 0 <= i < 3 ==> s[i].available <= m
    ensures exists i :: 0 <= i < 3 && m == s[i].available
  {
    Max(s[0].available, Max(s[1].available, s[2].available))
  }

  function Minimum(s: Samples): (m: nat)
    ensures forall i :: 0 <= i < 3 ==> m <= s[i].available
    ensures exists i :: 0 <= i < 3 && m == s[i].available
  {
    Min(s[0].available, Min(s[1].available, s[2].available))
  }

  function Growth(s: Samples, i: nat): nat
    requires i < 2
  {
    SatSub(s[i + 1].available, s[i].available)
  }

  function Elapsed(s: Samples, i: nat): int
    requires i < 2
  {
    s[i + 1].at - s[i].at
  }

  predicate Timed(s: Samples) { Elapsed(s, 0) > 0 && Elapsed(s, 1) > 0 }

  /** The 128-bit numerator of the ceiling division fits. */
  predicate Fits(growth: nat, interval: nat, elapsed: nat) {
    elapsed > 0 && growth * interval + (elapsed - 1) <= MAX_U128
  }

  /** `growth` over `elapsed`, projected on `interval`, rounded up and saturated. */
  function Projected(growth: nat, interval: nat, elapsed: nat): nat
    requires elapsed > 0
  {
    Min(MAX_U64, if Fits(growth, interval, elapsed) then (growth * interval + (elapsed - 1)) / elapsed else MAX_U128)
  }

  /** The reserve for both sample pairs. */
  function Ambient(s: Samples, interval: nat): Option<nat> {
    if Timed(s) then
      Some(Max(Projected(Growth(s, 0), interval, Elapsed(s, 0)), Projected(Growth(s, 1), interval, Elapsed(s, 1))))
    else None
  }

  method AmbientGrowth(s: Samples, interval: nat) returns (r: Option<nat>)
    ensures r == Ambient(s, interval)
  {
    var reserve := 0;
    var i := 0;
    while i < 2
      invariant 0 <= i <= 2
      invariant forall j :: 0 <= j < i ==> Elapsed(s, j) > 0
      invariant i == 0 ==> reserve == 0
      invariant i == 1 ==> reserve == Projected(Growth(s, 0), interval, Elapsed(s, 0))
      invariant i == 2 ==> Some(reserve) == Ambient(s, interval)
    {
      var elapsed := s[i + 1].at - s[i].at;
      if elapsed <= 0 { return None; }
      reserve := Max(reserve, Projected(Growth(s, i), interval, elapsed));
      i := i + 1;
    }
    return Some(reserve);
  }

  /** `reserve` is at least every measured rate over the whole interval, for both pairs of samples. */
  predicate Covers(s: Samples, interval: nat, reserve: nat) {
    && (s[1].available - s[0].available) * interval <= reserve * (s[1].at - s[0].at)
    && (s[2].available - s[1].available) * interval <= reserve * (s[2].at - s[1].at)
  }

  /** A shrinking pair is covered by any reserve. */
  lemma CoversGrowth(s: Samples, interval: nat, reserve: nat)
    requires Timed(s)
    ensures Covers(s, interval, reserve) <==>
      && Growth(s, 0) * interval <= reserve * Elapsed(s, 0)
      && Growth(s, 1) * interval <= reserve * Elapsed(s, 1)
  {
    Signs(s[1].available - s[0].available, interval, reserve, Elapsed(s, 0));
    Signs(s[2].available - s[1].available, interval, reserve, Elapsed(s, 1));
  }

  lemma Signs(growth: int, interval: nat, reserve: nat, elapsed: nat)
    ensures growth <= 0 ==> growth * interval <= reserve * elapsed && 0 * interval <= reserve * elapsed
  {
    if growth <= 0 { StrictlyMore(growth, 0, interval); }
    StrictlyMore(0, reserve, elapsed);
  }

  lemma {:induction false} MoreBy(a: int, k: nat, c: nat)
    ensures (a + k) * c >= a * c
    decreases k
  {
    if k > 0 {
      MoreBy(a, k - 1, c);
      assert (a + k) * c == (a + (k - 1)) * c + c;
    }
  }

  lemma StrictlyMore(a: int, b: int, c: nat)
    ensures a < b ==> a * c + c <= b * c
    ensures a <= b ==> a * c <= b * c
  {
    if a < b {
      MoreBy(a + 1, b - (a + 1), c);
      assert (a + 1) * c == a * c + c;
    }
  }

  lemma CeilingIsLeast(a: nat, b: nat, r: nat)
    requires b > 0
    ensures a <= (a + (b - 1)) / b * b
    ensures a <= r * b <==> (a + (b - 1)) / b <= r
  {
    var q := (a + (b - 1)) / b;
    assert q * b <= a + (b - 1) < q * b + b;
    StrictlyMore(r, q, b);
    StrictlyMore(q, r, b);
  }

  /**
   * The reserve is the least one covering both pairs, or saturated.  It is
   * saturated exactly when the least one, or the 128-bit arithmetic, overflows.
   */
  lemma AmbientIsLeast(s: Samples, interval: nat, other: nat)
    requires Timed(s)
    ensures var reserve := Ambient(s, interval).value;
      && (reserve < MAX_U64 ==> Covers(s, interval, reserve))
      && (Fits(Growth(s, 0), interval, Elapsed(s, 0)) && Fits(Growth(s, 1), interval, Elapsed(s, 1)) ==>
            Covers(s, interval, other) ==> reserve <= other)
      && (other < MAX_U64 && Covers(s, interval, other) && reserve == MAX_U64 ==>
            !(Fits(Growth(s, 0), interval, Elapsed(s, 0)) && Fits(Growth(s, 1), interval, Elapsed(s, 1))))
  {
    var reserve := Ambient(s, interval).value;
    CoversGrowth(s, interval, reserve);
    CoversGrowth(s, interval, other);
    hide Covers;
    CeilingIsLeast(Growth(s, 0) * interval, Elapsed(s, 0), reserve);
    CeilingIsLeast(Growth(s, 1) * interval, Elapsed(s, 1), reserve);
    CeilingIsLeast(Growth(s, 0) * interval, Elapsed(s, 0), other);
    CeilingIsLeast(Growth(s, 1) * interval, Elapsed(s, 1), other);
  }

  datatype Budget = Budget(after: nat, observed: nat, ambient: nat)

  function RecoveryBudget(before: Samples, after: Samples): (budget: Option<Budget>)
    ensures budget.Some?
      <==> Timed(before) && Timed(after) && before[0].at <= after[2].at && before[2].at <= after[0].at
  {
    if after[2].at < before[0].at || after[0].at < before[2].at then None
    else
      var interval := after[2].at - before[0].at;
      var a, b := Ambient(before, interval), Ambient(after, interval);
      if a.None? || b.None? then None
      else
        var low := Minimum(after);
        Some(Budget(low, SatSub(low, Maximum(before)), Max(a.value, b.value)))
  }

  datatype Operation = Trash | Permanent

  /** The outcome tags a receipt can carry. */
  datatype Outcome = Prepared | Cancelled | Skipped | Failed | Trashed | Deleted | Partial | Restored | Interrupted

  /** The credit for one cleanup. */
  function Credit(operation: Operation, outcome: Outcome, reported: nat, private: nat, known: bool,
                  budget: Option<Budget>): nat {
    if budget.None? then 0
    else
      var supported := SatSub(budget.value.observed, budget.value.ambient);
      if operation != Permanent || outcome != Deleted || !known then 0 else Min(private, Min(reported, supported))
  }

  lemma CreditNeedsDeletion(operation: Operation, outcome: Outcome, reported: nat, private: nat, known: bool,
                            budget: Option<Budget>)
    ensures Credit(operation, outcome, reported, private, known, budget) > 0 ==>
      operation == Permanent && outcome == Deleted && known && private > 0 && reported > 0 && budget.Some?
  {
  }

  // ---- The credit, on the samples ---------------------------------------------

  /** Six readings in this order in time, the last three after the first three. */
  predicate Surrounds(before: Samples, after: Samples) {
    before[0].at < before[1].at < before[2].at <= after[0].at < after[1].at < after[2].at
  }

  /** The 128-bit arithmetic on both pairs fits. */
  predicate Narrow(s: Samples, interval: nat) {
    forall i :: 0 <= i < 2 ==>
      Max(0, s[i + 1].available - s[i].available) * interval + (s[i + 1].at - s[i].at) - 1 <= MAX_U128
  }

  /**
   * The least reserve that covers all four pairs from the first reading to the
   * last, or the greatest 64-bit value if that is less or the arithmetic does
   * not fit.
   */
  ghost predicate IsReserve(before: Samples, after: Samples, reserve: nat)
    requires Surrounds(before, after)
  {
    var interval := after[2].at - before[0].at;
    if Narrow(before, interval) && Narrow(after, interval) then
      && reserve <= MAX_U64
      && (forall r: nat :: Covers(before, interval, r) && Covers(after, interval, r) ==> reserve <= r)
      && (reserve < MAX_U64 ==> Covers(before, interval, reserve) && Covers(after, interval, reserve))
    else reserve == MAX_U64
  }

  lemma NarrowFits(s: Samples, interval: nat)
    requires Timed(s)
    ensures Narrow(s, interval)
      <==> Fits(Growth(s, 0), interval, Elapsed(s, 0)) && Fits(Growth(s, 1), interval, Elapsed(s, 1))
  {
    assert forall i :: 0 <= i < 2 ==> Max(0, s[i + 1].available - s[i].available) == Growth(s, i);
  }

  lemma CoversMore(s: Samples, interval: nat, r: nat, more: nat)
    requires Timed(s) && Covers(s, interval, r) && r <= more
    ensures Covers(s, interval, more)
  {
    StrictlyMore(r, more, Elapsed(s, 0));
    StrictlyMore(r, more, Elapsed(s, 1));
  }

  /** The same for one observation. */
  ghost predicate IsAmbient(s: Samples, interval: nat, reserve: nat) {
    if Narrow(s, interval) then
      && reserve <= MAX_U64
      && (forall r: nat :: Covers(s, interval, r) ==> reserve <= r)
      && (reserve < MAX_U64 ==> Covers(s, interval, reserve))
    else reserve == MAX_U64
  }

  lemma AmbientFits(s: Samples, interval: nat)
    requires Timed(s)
    ensures IsAmbient(s, interval, Ambient(s, interval).value)
  {
    var reserve := Ambient(s, interval).value;
    NarrowFits(s, interval);
    assert reserve <= MAX_U64 && (!Narrow(s, interval) ==> reserve == MAX_U64);
    AmbientIsLeast(s, interval, reserve);
    if Narrow(s, interval) {
      forall r: nat | Covers(s, interval, r) ensures reserve <= r { AmbientIsLeast(s, interval, r); }
    }
  }

  lemma AmbientsReserve(before: Samples, after: Samples, a: nat, b: nat)
    requires Surrounds(before, after)
    requires var interval := after[2].at - before[0].at;
      IsAmbient(before, interval, a) && IsAmbient(after, interval, b)
    ensures IsReserve(before, after, Max(a, b))
  {
    var interval := after[2].at - before[0].at;
    hide Narrow;
    if a < MAX_U64 && b < MAX_U64 && Narrow(before, interval) && Narrow(after, interval) {
      CoversMore(before, interval, a, Max(a, b));
      CoversMore(after, interval, b, Max(a, b));
    }
    hide Covers;
  }

  /** The budget's reserve is that one. */
  lemma ReserveIsLeast(before: Samples, after: Samples)
    requires Surrounds(before, after)
    ensures RecoveryBudget(before, after).Some?
      && IsReserve(before, after, RecoveryBudget(before, after).value.ambient)
  {
    var interval := after[2].at - before[0].at;
    hide Covers, Narrow, Fits, Projected, IsReserve, IsAmbient;
    AmbientFits(before, interval);
    AmbientFits(after, interval);
    AmbientsReserve(before, after, Ambient(before, interval).value, Ambient(after, interval).value);
  }

  /** What is observed is the smallest difference between a later and an earlier reading, if there is no loss. */
  lemma ObservedIsLeast(before: Samples, after: Samples)
    requires Surrounds(before, after)
    ensures var budget := RecoveryBudget(before, after).value;
      && (forall i, j :: 0 <= i < 3 && 0 <= j < 3 ==>
            budget.observed <= Max(0, after[j].available - before[i].available))
      && (exists i, j :: 0 <= i < 3 && 0 <= j < 3
            && budget.observed == Max(0, after[j].available - before[i].available))
      && (forall j :: 0 <= j < 3 ==> budget.after <= after[j].available)
      && (exists j :: 0 <= j < 3 && budget.after == after[j].available)
  {
    var i :| 0 <= i < 3 && Maximum(before) == before[i].available;
    var j :| 0 <= j < 3 && Minimum(after) == after[j].available;
    var budget := RecoveryBudget(before, after).value;
    hide Maximum, Minimum, Ambient;
    assert budget.observed == Max(0, after[j].available - before[i].available);
  }

  /** `bytes` more than the reserve are there after the cleanup, whichever two readings are compared. */
  predicate Recovered(before: Samples, after: Samples, reserve: nat, bytes: nat) {
    forall i, j :: 0 <= i < 3 && 0 <= j < 3 ==> before[i].available + bytes + reserve <= after[j].available
  }

  /**
   * The credit is the greatest number of bytes that a finished permanent
   * removal with known private bytes can be given: no more than those, than
   * the receipt reports, and than was recovered beyond the reserve.
   */
  lemma CreditIsGreatest(operation: Operation, outcome: Outcome, reported: nat, private: nat, known: bool,
                         before: Samples, after: Samples, reserve: nat, bytes: nat)
    requires Surrounds(before, after) ==> IsReserve(before, after, reserve)
    ensures bytes <= Credit(operation, outcome, reported, private, known, RecoveryBudget(before, after))
      <==> bytes == 0 || (operation == Permanent && outcome == Deleted && known && Surrounds(before, after)
                          && bytes <= private && bytes <= reported && Recovered(before, after, reserve, bytes))
  {
    var budget := RecoveryBudget(before, after);
    assert budget.Some? <==> Surrounds(before, after);
    if budget.Some? {
      ReserveIsLeast(before, after);
      OneReserve(before, after, reserve, budget.value.ambient);
      ObservedIsLeast(before, after);
      hide RecoveryBudget, IsReserve, Surrounds;
    }
  }

  lemma OneReserve(before: Samples, after: Samples, x: nat, y: nat)
    requires Surrounds(before, after) && IsReserve(before, after, x) && IsReserve(before, after, y)
    ensures x == y
  {
    hide Covers, Narrow;
  }

  /** A measured pair of one of the two observations grew at a rate no less than `bytes` over `time`. */
  predicate Measured(s: Samples, bytes: int, time: nat) {
    bytes * Elapsed(s, 0) <= Growth(s, 0) * time || bytes * Elapsed(s, 1) <= Growth(s, 1) * time
  }

  lemma RateIsReserved(growth: nat, elapsed: nat, interval: nat, time: nat, bytes: int, reserve: nat)
    requires elapsed > 0 && time <= interval && bytes * elapsed <= growth * time
    requires growth * interval <= reserve * elapsed
    ensures bytes <= reserve
  {
    StrictlyMore(time, interval, growth);
    StrictlyMore(reserve, bytes, elapsed);
  }

  lemma MeasuredIsReserved(s: Samples, interval: nat, time: nat, bytes: int)
    requires Timed(s) && time <= interval && Measured(s, bytes, time)
    ensures bytes <= Ambient(s, interval).value || Ambient(s, interval).value == MAX_U64
  {
    var reserve := Ambient(s, interval).value;
    AmbientIsLeast(s, interval, reserve);
    CoversGrowth(s, interval, reserve);
    if reserve < MAX_U64 {
      if bytes * Elapsed(s, 0) <= Growth(s, 0) * time {
        RateIsReserved(Growth(s, 0), Elapsed(s, 0), interval, time, bytes, reserve);
      } else {
        RateIsReserved(Growth(s, 1), Elapsed(s, 1), interval, time, bytes, reserve);
      }
    }
  }

  /**
   * Credit soundness.  Let the capacity be `background(t)`, plus `freed` after
   * the cleanup.  If over the cleanup the background did not grow faster than
   * some measured pair, the credit never exceeds the bytes really freed.
   */
  lemma CreditIsSound(before: Samples, after: Samples, background: nat -> int, freed: nat,
                      operation: Operation, outcome: Outcome, reported: nat, private: nat, known: bool)
    requires before[2].available == background(before[2].at)
    requires after[0].available == background(after[0].at) + freed
    requires before[2].at <= after[0].at
    requires Maximum(after) <= MAX_U64
    requires var bytes := background(after[0].at) - background(before[2].at);
      var time := after[0].at - before[2].at;
      Measured(before, bytes, time) || Measured(after, bytes, time)
    ensures Credit(operation, outcome, reported, private, known, RecoveryBudget(before, after)) <= freed
  {
    var budget := RecoveryBudget(before, after);
    if budget.Some? {
      var bytes := background(after[0].at) - background(before[2].at);
      var time := after[0].at - before[2].at;
      var interval := after[2].at - before[0].at;
      if Measured(before, bytes, time) { MeasuredIsReserved(before, interval, time, bytes); }
      else { MeasuredIsReserved(after, interval, time, bytes); }
      assert budget.value.observed <= SatSub(after[0].available, before[2].available);
    }
  }
}
