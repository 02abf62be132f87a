/** The duplicate analysis: bucket, sample, hash, compare, finalize, and what is reported when it is stopped. */
module DuplicateAnalysis {
  import opened Prelude
  import opened Grouping
  import opened Pipeline
  import opened Buckets
  import Exact = ExactComparison

  const MAX_FILES := 500

  type Failure = Exact.Failure

  // ---- Inputs -----------------------------------------------------------

  /** Positions are ordinals, as `enumerate` hands them out. */
  predicate Numbered(inputs: seq<Item>) { forall i :: 0 <= i < |inputs| ==> inputs[i].ordinal == i }

  /** What `validate_inputs` accepts. */
  predicate Admissible(inputs: seq<Item>) {
    && |inputs| <= MAX_FILES
    && (forall i :: 0 <= i < |inputs| ==> inputs[i].valid)
    && Exact.Independent(inputs)
    && (forall i, j :: 0 <= i < j < |inputs| ==> inputs[i].path != inputs[j].path)
  }

  method ValidateInputs(inputs: seq<Item>) returns (ok: bool)
    ensures ok <==> Admissible(inputs)
  {
    if |inputs| > MAX_FILES { return false; }
    var identities, paths := {}, {};
    var i := 0;
    while i < |inputs|
      invariant 0 <= i <= |inputs| && forall k :: 0 <= k < i ==> inputs[k].valid
      invariant identities == set k | 0 <= k < i :: (inputs[k].device, inputs[k].inode)
      invariant paths == set k | 0 <= k < i :: inputs[k].path
      invariant forall j, k :: 0 <= j < k < i ==>
        && !(inputs[j].device == inputs[k].device && inputs[j].inode == inputs[k].inode)
        && inputs[j].path != inputs[k].path
    {
      var identity := (inputs[i].device, inputs[i].inode);
      if !inputs[i].valid || identity in identities || inputs[i].path in paths { return false; }
      identities, paths := identities + {identity}, paths + {inputs[i].path};
      i := i + 1;
    }
    return true;
  }

  // ---- Where an input is in the pipeline --------------------------------

  /** What brought a group to its level: the phases its members passed, and the keys they share. */
  predicate Reached(stage: Stage, x: Item) {
    x.revalidates && (stage == AtBucket || x.sampling == Steady) && (stage == AtHash ==> x.hashing == Steady)
  }

  predicate Together(stage: Stage, x: Item, y: Item) {
    && x.device == y.device && |x.contents| == |y.contents|
    && (stage == AtBucket || x.sample == y.sample) && (stage == AtHash ==> x.full == y.full)
  }

  predicate At(inputs: seq<Item>, stage: Stage, g: seq<Item>) {
    && Ordered(g)
    && (forall x :: x in g ==> x in inputs && Reached(stage, x))
    && (forall x, y :: x in g && y in g ==> Together(stage, x, y))
  }

  lemma SubgroupReaches(inputs: seq<Item>, stage: Stage, g: seq<Item>, y: Item)
    requires At(inputs, stage, g) && stage != AtHash
    ensures At(inputs, Below(stage), GroupOf(Keep(g, PhaseTest(stage)), NextLevel(stage), y))
  {
    hide Keep, Ordered;
    var k, t := Keep(g, PhaseTest(stage)), KeyIs(NextLevel(stage), KeyAt(NextLevel(stage), y));
    KeepMembers(g, PhaseTest(stage));
    KeepOrdered(g, PhaseTest(stage));
    KeepMembers(k, t);
    KeepOrdered(k, t);
    var h := GroupOf(k, NextLevel(stage), y);
    forall x | x in h ensures x in inputs && Reached(Below(stage), x) {
      assert x in k && Holds(PhaseTest(stage), x);
    }
    forall x, z | x in h && z in h ensures Together(Below(stage), x, z) {
      assert x in k && z in k && Together(stage, x, z);
      assert KeyAt(NextLevel(stage), x) == KeyAt(NextLevel(stage), z);
    }
  }

  lemma SplitReaches(inputs: seq<Item>, stage: Stage, g: seq<Item>)
    requires At(inputs, stage, g) && stage != AtHash
    ensures Ordered(Keep(g, PhaseTest(stage)))
    ensures forall h :: h in Split(stage, g) ==> At(inputs, Below(stage), h)
  {
    var k, l := Keep(g, PhaseTest(stage)), NextLevel(stage);
    KeepOrdered(g, PhaseTest(stage));
    GroupMembers(k, l);
    assert Split(stage, g) == GroupBy(k, l);
    hide At, Keep, Ordered, GroupBy, GroupOf;
    forall h | h in Split(stage, g) ensures At(inputs, Below(stage), h) {
      SubgroupReaches(inputs, stage, g, h[0]);
    }
  }

  lemma BucketReaches(inputs: seq<Item>, x: Item)
    requires Numbered(inputs)
    ensures At(inputs, AtBucket, GroupOf(Keep(inputs, Revalidates), ByBucket, x))
  {
    assert Ordered(inputs);
    hide Keep, Ordered;
    var k, t := Keep(inputs, Revalidates), KeyIs(ByBucket, KeyAt(ByBucket, x));
    KeepMembers(inputs, Revalidates);
    KeepOrdered(inputs, Revalidates);
    KeepMembers(k, t);
    KeepOrdered(k, t);
    var g := GroupOf(k, ByBucket, x);
    forall y | y in g ensures y in inputs && y.revalidates && KeyAt(ByBucket, y) == KeyAt(ByBucket, x) {
      assert y in k && Holds(t, y) && Holds(Revalidates, y);
    }
  }

  lemma BucketsReach(inputs: seq<Item>)
    requires Numbered(inputs)
    ensures Ordered(Keep(inputs, Revalidates))
    ensures forall h :: h in GroupBy(Keep(inputs, Revalidates), ByBucket) ==> At(inputs, AtBucket, h)
  {
    KeepOrdered(inputs, Revalidates);
    GroupMembers(Keep(inputs, Revalidates), ByBucket);
    hide Keep, Ordered, GroupBy, GroupOf, At;
    forall h | h in GroupBy(Keep(inputs, Revalidates), ByBucket) ensures At(inputs, AtBucket, h) {
      BucketReaches(inputs, h[0]);
    }
  }

  lemma GroupIsIndependent(inputs: seq<Item>, g: seq<Item>)
    requires Numbered(inputs) && Exact.Independent(inputs) && Ordered(g) && forall x :: x in g ==> x in inputs
    ensures Exact.Independent(g)
  {
    forall i, j | 0 <= i < j < |g| ensures !(g[i].device == g[j].device && g[i].inode == g[j].inode) {
      assert g[i] in g && g[j] in g;
      var m :| 0 <= m < |inputs| && inputs[m] == g[i];
      var n :| 0 <= n < |inputs| && inputs[n] == g[j];
      assert m < n;
    }
  }

  lemma GroupIsComparable(inputs: seq<Item>, h: seq<Item>)
    requires Numbered(inputs) && Exact.Independent(inputs) && At(inputs, AtHash, h) && |h| >= 2
    ensures Exact.Comparable(h) <==> forall x :: x in h ==> x.comparing == Steady
  {
    GroupIsIndependent(inputs, h);
    assert forall x, y :: x in h && y in h ==> |x.contents| == |y.contents| by {
      forall x, y | x in h && y in h ensures |x.contents| == |y.contents| { assert Together(AtHash, x, y); }
    }
    hide At, Exact.Comparable, Exact.Independent;
    Exact.SteadyIsComparable(h);
  }

  /** A hash group with one unsafe member makes none of its members usable. */
  lemma BadGroupIsUnusable(inputs: seq<Item>, h: seq<Item>)
    requires At(inputs, AtHash, h) && !Good(h)
    ensures forall x :: x in h ==> !Usable(inputs, x)
  {
    var y :| y in h && !(y.comparing == Steady && y.finalizing == Steady);
    forall x | x in h ensures !Usable(inputs, x) { assert Together(AtHash, x, y); }
  }

  // ---- What is skipped ----------------------------------------------------

  function SetOf(g: seq<Item>): set<Item> { set x | x in g }

  /** Those that fail the phase of a level. */
  function Failing(stage: Stage, g: seq<Item>): set<Item> { set x | x in g && !Holds(PhaseTest(stage), x) }

  lemma FailingMore(stage: Stage, g: seq<Item>, i: nat)
    requires i < |g|
    ensures Failing(stage, g[..i + 1]) ==
      Failing(stage, g[..i]) + if Holds(PhaseTest(stage), g[i]) then {} else {g[i]}
  {
    assert g[..i + 1] == g[..i] + [g[i]];
  }

  lemma NothingFails(stage: Stage, g: seq<Item>)
    ensures Failing(stage, g[..0]) == {} && Keep(g[..0], PhaseTest(stage)) == []
  {
  }

  lemma FailingPart(stage: Stage, g: seq<Item>, i: nat)
    requires i <= |g|
    ensures Failing(stage, g[..i]) <= Failing(stage, g)
  {
    assert forall x :: x in g[..i] ==> x in g;
  }

  /** What one group at a level and the groups below it leave out. */
  function Lost(stage: Stage, g: seq<Item>): set<Item>
    decreases Rank(stage), 1, 0
  {
    if !Eligible(g) then {}
    else if stage == AtHash then (if Good(g) then {} else SetOf(g))
    else Failing(stage, g) + AllLost(Below(stage), Split(stage, g))
  }

  function AllLost(stage: Stage, gs: seq<seq<Item>>): set<Item>
    decreases Rank(stage), 2, |gs|
  {
    if gs == [] then {} else AllLost(stage, gs[..|gs| - 1]) + Lost(stage, gs[|gs| - 1])
  }

  function Unverified(inputs: seq<Item>): set<Item> { set x | x in inputs && !x.revalidates }

  function SizeBuckets(inputs: seq<Item>): seq<seq<Item>> { GroupBy(Keep(inputs, Revalidates), ByBucket) }

  /** An input failed in a phase it reached. */
  predicate Fails(inputs: seq<Item>, x: Item) {
    || !x.revalidates
    || (x.sampling != Steady && Eligible(BucketOf(inputs, x)))
    || (x.sampling == Steady && x.hashing != Steady && Eligible(Pipeline.SampleGroup(inputs, x)))
    || (Readable(x) && Eligible(Cohort(inputs, x)) && !Good(Cohort(inputs, x)))
  }

  lemma {:induction false} AllLostMembers(stage: Stage, gs: seq<seq<Item>>, x: Item)
    ensures x in AllLost(stage, gs) <==> exists i :: 0 <= i < |gs| && x in Lost(stage, gs[i])
    decreases |gs|
  {
    hide Lost;
    if gs != [] {
      var n := |gs| - 1;
      AllLostMembers(stage, gs[..n], x);
      if x in AllLost(stage, gs[..n]) {
        var i :| 0 <= i < n && x in Lost(stage, gs[..n][i]);
        assert gs[i] == gs[..n][i];
      }
      if i :| 0 <= i < |gs| && x in Lost(stage, gs[i]) {
        if i < n { assert gs[..n][i] == gs[i]; }
      }
    }
  }

  lemma {:induction false} LostInside(stage: Stage, g: seq<Item>, x: Item)
    requires x in Lost(stage, g)
    ensures x in g
    decreases Rank(stage)
  {
    if stage != AtHash && x in AllLost(Below(stage), Split(stage, g)) {
      var gs := Split(stage, g);
      AllLostMembers(Below(stage), gs, x);
      var i :| 0 <= i < |gs| && x in Lost(Below(stage), gs[i]);
      LostInside(Below(stage), gs[i], x);
      SplitInside(stage, g, gs[i]);
    }
  }

  /** One level of grouping: an item is lost exactly in its own group. */
  lemma SplitLoses(below: Stage, g: seq<Item>, l: Level, x: Item)
    ensures x in AllLost(below, GroupBy(g, l)) <==> x in g && x in Lost(below, GroupOf(g, l, x))
  {
    var gs := GroupBy(g, l);
    GroupMembers(g, l);
    AllLostMembers(below, gs, x);
    KeepMembers(g, KeyIs(l, KeyAt(l, x)));
    hide GroupBy, Lost, AllLost, Keep;
    if x in AllLost(below, gs) {
      var i :| 0 <= i < |gs| && x in Lost(below, gs[i]);
      assert gs[i] in gs;
      LostInside(below, gs[i], x);
      KeepMembers(g, KeyIs(l, KeyAt(l, gs[i][0])));
    }
    if x in g && x in Lost(below, GroupOf(g, l, x)) {
      assert GroupOf(g, l, x) in gs;
      var i :| 0 <= i < |gs| && gs[i] == GroupOf(g, l, x);
    }
  }

  /** Where a group loses an item that is in it. */
  lemma GroupLoses(stage: Stage, g: seq<Item>, x: Item)
    requires stage != AtHash
    ensures x in Lost(stage, g) <==>
      Eligible(g) && x in g && (Holds(PhaseTest(stage), x) ==>
        x in Lost(Below(stage), GroupOf(Keep(g, PhaseTest(stage)), NextLevel(stage), x)))
  {
    var k, l := Keep(g, PhaseTest(stage)), NextLevel(stage);
    assert Split(stage, g) == GroupBy(k, l);
    SplitLoses(Below(stage), k, l, x);
    KeepMembers(g, PhaseTest(stage));
    hide Keep, GroupBy, Eligible, AllLost;
  }

  /** An eligible sample group is in an eligible bucket, and an eligible cohort in an eligible sample group. */
  lemma EligibleAbove(inputs: seq<Item>, x: Item)
    ensures Eligible(Cohort(inputs, x)) ==> Eligible(Pipeline.SampleGroup(inputs, x))
    ensures Eligible(Pipeline.SampleGroup(inputs, x)) ==> Eligible(BucketOf(inputs, x))
  {
    var b, g := BucketOf(inputs, x), Pipeline.SampleGroup(inputs, x);
    WiderIsEligible(Keep(g, Hashes), KeyIs(ByFull, KeyAt(ByFull, x)));
    WiderIsEligible(g, Hashes);
    WiderIsEligible(Keep(b, Samples), KeyIs(BySample, KeyAt(BySample, x)));
    WiderIsEligible(b, Samples);
    hide Keep, Eligible;
  }

  /** The three levels together. */
  lemma LostChain(inputs: seq<Item>, x: Item)
    requires x in inputs && x.revalidates
    ensures var b, g, h := BucketOf(inputs, x), Pipeline.SampleGroup(inputs, x), Cohort(inputs, x);
      x in AllLost(AtBucket, SizeBuckets(inputs)) <==>
        Eligible(b) && (x.sampling == Steady ==>
          Eligible(g) && (x.hashing == Steady ==> Eligible(h) && !Good(h)))
  {
    var b, g, h := BucketOf(inputs, x), Pipeline.SampleGroup(inputs, x), Cohort(inputs, x);
    SplitLoses(AtBucket, Keep(inputs, Revalidates), ByBucket, x);
    GroupLoses(AtBucket, b, x);
    GroupLoses(AtSample, g, x);
    Inside(inputs, x);
    assert x in Lost(AtHash, h) <==> Eligible(h) && !Good(h) && x in h;
    assert Holds(PhaseTest(AtBucket), x) <==> x.sampling == Steady;
    assert Holds(PhaseTest(AtSample), x) <==> x.hashing == Steady;
    hide Keep, GroupBy, Eligible, Good, Lost, AllLost, Holds;
  }

  /** An input is left out exactly if it fails in a phase it reaches. */
  lemma LeftOut(inputs: seq<Item>, x: Item)
    requires x in inputs
    ensures x in Unverified(inputs) + AllLost(AtBucket, SizeBuckets(inputs)) <==> Fails(inputs, x)
  {
    LostVerified(inputs, x);
    if x.revalidates {
      LostChain(inputs, x);
      EligibleAbove(inputs, x);
      hide Eligible, Good, AllLost, Cohort, Pipeline.SampleGroup, BucketOf, SizeBuckets;
    }
  }

  lemma LostVerified(inputs: seq<Item>, x: Item)
    ensures x in Unverified(inputs) <==> x in inputs && !x.revalidates
  {
  }

  lemma Inside(inputs: seq<Item>, x: Item)
    requires x in inputs && x.revalidates
    ensures x in Keep(inputs, Revalidates) && x in BucketOf(inputs, x)
    ensures x.sampling == Steady ==> x in Pipeline.SampleGroup(inputs, x)
    ensures Readable(x) ==> x in Cohort(inputs, x)
  {
    KeepMembers(inputs, Revalidates);
    KeepMembers(Keep(inputs, Revalidates), KeyIs(ByBucket, KeyAt(ByBucket, x)));
    KeepMembers(BucketOf(inputs, x), Samples);
    KeepMembers(Keep(BucketOf(inputs, x), Samples), KeyIs(BySample, KeyAt(BySample, x)));
    KeepMembers(Pipeline.SampleGroup(inputs, x), Hashes);
    KeepMembers(Keep(Pipeline.SampleGroup(inputs, x), Hashes), KeyIs(ByFull, KeyAt(ByFull, x)));
    hide Keep;
  }

  /**
   * A run that has finished `done` buckets and may be in the next one: what is
   * found and what is left out is what those buckets give, and part of what
   * the next one gives.
   */
  ghost predicate Partly(inputs: seq<Item>, done: nat, groups: seq<seq<Item>>, skipped: set<Item>) {
    var buckets := SizeBuckets(inputs);
    && done <= |buckets|
    && var next := Min(done + 1, |buckets|);
    && AllFound(AtBucket, buckets[..done]) <= groups <= AllFound(AtBucket, buckets[..next])
    && AllLost(AtBucket, buckets[..done]) <= skipped
    && skipped <= Unverified(inputs) + AllLost(AtBucket, buckets[..next])
    && (done > 0 ==> Unverified(inputs) <= skipped)
  }

  // ---- What it may cost -------------------------------------------------

  function SampleCost(x: Item): nat { 3 * Min(|x.contents|, Exact.CHUNK) }

  function PhaseCost(stage: Stage, g: seq<Item>): nat
    requires stage != AtHash
  {
    if g == [] then 0 else (if stage == AtBucket then SampleCost(g[0]) else |g[0].contents|) + PhaseCost(stage, g[1..])
  }

  function GroupCost(stage: Stage, g: seq<Item>): nat
    decreases Rank(stage), 1, 0
  {
    if !Eligible(g) then 0
    else if stage == AtHash then Exact.Cost(g)
    else PhaseCost(stage, g) + GroupsCost(Below(stage), Split(stage, g))
  }

  function GroupsCost(stage: Stage, gs: seq<seq<Item>>): nat
    decreases Rank(stage), 2, |gs|
  {
    if gs == [] then 0 else GroupCost(stage, gs[0]) + GroupsCost(stage, gs[1..])
  }

  /** The most an analysis can read. */
  function TotalCost(inputs: seq<Item>): nat { GroupsCost(AtBucket, GroupBy(Keep(inputs, Revalidates), ByBucket)) }

  // ---- Digests ----------------------------------------------------------

  lemma WindowLength(x: Item, offset: nat)
    requires offset + Min(|x.contents|, Exact.CHUNK) <= |x.contents|
    ensures |Exact.Chunk(x.contents, offset)| == Min(|x.contents|, Exact.CHUNK)
  {
  }

  /** One window of a sample. */
  method ReadWindow(state: Exact.WorkState, x: Item, offset: nat) returns (stop: Option<Failure>)
    requires state.Valid() && offset + Min(|x.contents|, Exact.CHUNK) <= |x.contents|
    modifies state
    ensures state.Valid() && state.open == old(state.open) && (stop == Some(Exact.Unsafe) ==> x.sampling.Breaks?)
    ensures state.bytesRead <= old(state.bytesRead) + Min(|x.contents|, Exact.CHUNK)
    ensures stop.None? ==> state.bytesRead == old(state.bytesRead) + Min(|x.contents|, Exact.CHUNK)
    ensures old(state.Calm()) ==> state.Calm()
    ensures old(state.Calm()) && old(state.bytesRead) + Min(|x.contents|, Exact.CHUNK) <= state.limit ==>
      stop.None? || stop == Some(Exact.Unsafe)
    ensures stop.Some? ==> state.Explains(stop)
    ensures stop in {Some(Exact.Cancelled), Some(Exact.Limited)} || state.stops == old(state.stops)
  {
    hide Exact.WorkState.Explains, Exact.WorkState.Met, Exact.WorkState.Calm, Exact.WorkState.Asked;
    hide Exact.Heard, Exact.Coming;
    WindowLength(x, offset);
    hide Exact.Chunk;
    stop := state.Checkpoint();
    if stop.Some? { return; }
    stop := state.Checkpoint();
    if stop.Some? { return; }
    var bytes;
    stop, bytes := state.ReadFilled(x, x.sampling, offset);
    if stop.Some? { return; }
    stop := state.Checkpoint();
  }

  /** The three windows and the last validation, while the file is open. */
  method ReadSample(state: Exact.WorkState, x: Item) returns (stop: Option<Failure>)
    requires state.Valid() && x.sampling != Unopenable
    modifies state
    ensures state.Valid() && state.open == old(state.open) && state.bytesRead <= old(state.bytesRead) + SampleCost(x)
    ensures stop.None? ==> x.sampling == Steady
    ensures stop == Some(Exact.Unsafe) ==> x.sampling != Steady
    ensures old(state.Calm()) ==> state.Calm()
    ensures old(state.Calm()) && old(state.bytesRead) + SampleCost(x) <= state.limit ==>
      stop.None? || stop == Some(Exact.Unsafe)
    ensures stop.Some? ==> state.Explains(stop)
    ensures stop in {Some(Exact.Cancelled), Some(Exact.Limited)} || state.stops == old(state.stops)
  {
    hide Exact.WorkState.Explains, Exact.WorkState.Met, Exact.WorkState.Calm, Exact.WorkState.Asked;
    hide Exact.Heard, Exact.Coming;
    var length := Min(|x.contents|, Exact.CHUNK);
    var last := |x.contents| - length;
    var offsets := [0, last / 2, last];
    ghost var spent := 0;
    for i := 0 to 3
      invariant state.Valid() && state.open == old(state.open) && state.bytesRead == old(state.bytesRead) + spent
      invariant spent == if i == 0 then 0 else if i == 1 then length else if i == 2 then length + length else 3 * length
      invariant state.stops == old(state.stops) && (old(state.Calm()) ==> state.Calm())
    {
      assert offsets[i] <= last;
      stop := ReadWindow(state, x, offsets[i]);
      if stop.Some? { return; }
      spent := spent + length;
    }
    stop := state.Validate(x.sampling);
  }

  /** `sample_digest`: three windows, each as long as a chunk or the file. */
  method SampleDigest(state: Exact.WorkState, x: Item) returns (r: Exact.Work<nat>)
    requires state.Valid() && state.open == 0
    modifies state
    ensures state.Valid() && state.open == 0 && state.bytesRead <= old(state.bytesRead) + SampleCost(x)
    ensures r.Done? ==> x.sampling == Steady && r.value == x.sample
    ensures r == Exact.Stop(Exact.Unsafe) ==> x.sampling != Steady
    ensures old(state.Calm()) ==> state.Calm()
    ensures old(state.Calm()) && old(state.bytesRead) + SampleCost(x) <= state.limit ==>
      r.Done? || r.failure == Exact.Unsafe
    ensures r.Stop? ==> state.Explains(Some(r.failure))
    ensures r.Done? || r.failure == Exact.Unsafe ==> state.stops == old(state.stops)
  {
    hide Exact.WorkState.Explains, Exact.WorkState.Met, Exact.WorkState.Calm, Exact.WorkState.Asked;
    hide Exact.Heard, Exact.Coming;
    var stop := state.Open(x.sampling);
    if stop.Some? { return Exact.Stop(stop.value); }
    stop := ReadSample(state, x);
    state.Close(1);
    return if stop.None? then Exact.Done(x.sample) else Exact.Stop(stop.value);
  }

  /** All chunks and the last validation, while the file is open. */
  method ReadWhole(state: Exact.WorkState, x: Item) returns (stop: Option<Failure>)
    requires state.Valid() && x.hashing != Unopenable
    modifies state
    ensures state.Valid() && state.open == old(state.open) && state.bytesRead <= old(state.bytesRead) + |x.contents|
    ensures stop.None? ==> x.hashing == Steady
    ensures stop == Some(Exact.Unsafe) ==> x.hashing != Steady
    ensures old(state.Calm()) ==> state.Calm()
    ensures old(state.Calm()) && old(state.bytesRead) + |x.contents| <= state.limit ==>
      stop.None? || stop == Some(Exact.Unsafe)
    ensures stop.Some? ==> state.Explains(stop)
    ensures stop in {Some(Exact.Cancelled), Some(Exact.Limited)} || state.stops == old(state.stops)
  {
    hide Exact.WorkState.Explains, Exact.WorkState.Met, Exact.WorkState.Calm, Exact.WorkState.Asked;
    hide Exact.Heard, Exact.Coming;
    var offset := 0;
    while offset < |x.contents|
      invariant 0 <= offset <= |x.contents| && state.Valid() && state.open == old(state.open)
      invariant state.bytesRead == old(state.bytesRead) + offset
      invariant state.stops == old(state.stops) && (old(state.Calm()) ==> state.Calm())
    {
      stop := state.Checkpoint();
      if stop.Some? { return; }
      var bytes;
      stop, bytes := state.ReadFilled(x, x.hashing, offset);
      if stop.Some? { return; }
      stop := state.Checkpoint();
      if stop.Some? { return; }
      offset := offset + |bytes|;
    }
    stop := state.Validate(x.hashing);
  }

  /** `full_digest`: every chunk once. */
  method FullDigest(state: Exact.WorkState, x: Item) returns (r: Exact.Work<nat>)
    requires state.Valid() && state.open == 0
    modifies state
    ensures state.Valid() && state.open == 0 && state.bytesRead <= old(state.bytesRead) + |x.contents|
    ensures r.Done? ==> x.hashing == Steady && r.value == x.full
    ensures r == Exact.Stop(Exact.Unsafe) ==> x.hashing != Steady
    ensures old(state.Calm()) ==> state.Calm()
    ensures old(state.Calm()) && old(state.bytesRead) + |x.contents| <= state.limit ==>
      r.Done? || r.failure == Exact.Unsafe
    ensures r.Stop? ==> state.Explains(Some(r.failure))
    ensures r.Done? || r.failure == Exact.Unsafe ==> state.stops == old(state.stops)
  {
    hide Exact.WorkState.Explains, Exact.WorkState.Met, Exact.WorkState.Calm, Exact.WorkState.Asked;
    hide Exact.Heard, Exact.Coming;
    var stop := state.Open(x.hashing);
    if stop.Some? { return Exact.Stop(stop.value); }
    stop := ReadWhole(state, x);
    state.Close(1);
    return if stop.None? then Exact.Done(x.full) else Exact.Stop(stop.value);
  }

  /** `finalize_hash_group`: every member once more. */
  method Finalize(state: Exact.WorkState, h: seq<Item>) returns (stop: Option<Failure>)
    requires state.Valid() && state.open == 0
    modifies state
    ensures state.Valid() && state.open == 0 && state.bytesRead == old(state.bytesRead)
    ensures stop.None? ==> forall x :: x in h ==> x.finalizing == Steady
    ensures stop == Some(Exact.Unsafe) ==> exists x :: x in h && x.finalizing != Steady
    ensures old(state.Calm()) ==> state.Calm() && (stop.None? || stop == Some(Exact.Unsafe))
    ensures stop.Some? ==> state.Explains(stop)
    ensures stop in {Some(Exact.Cancelled), Some(Exact.Limited)} || state.stops == old(state.stops)
  {
    hide Exact.WorkState.Explains, Exact.WorkState.Met, Exact.WorkState.Calm, Exact.WorkState.Asked;
    hide Exact.Heard, Exact.Coming;
    stop := None;
    var i := 0;
    while i < |h|
      invariant 0 <= i <= |h| && state.Valid() && state.open == 0
      invariant state.bytesRead == old(state.bytesRead) && stop.None?
      invariant forall k :: 0 <= k < i ==> h[k].finalizing == Steady
      invariant state.stops == old(state.stops) && (old(state.Calm()) ==> state.Calm())
    {
      assert h[i] in h;
      stop := state.Checkpoint();
      if stop.Some? { return; }
      stop := state.Open(h[i].finalizing);
      if stop.Some? { return; }
      stop := state.Validate(h[i].finalizing);
      state.Close(1);
      if stop.Some? { return; }
      i := i + 1;
    }
    stop := state.Checkpoint();
  }

  // ---- The analysis -----------------------------------------------------

  function Count(flags: seq<bool>): nat {
    if flags == [] then 0 else (if flags[0] then 1 else 0) + Count(flags[1..])
  }

  lemma {:induction false} CountOneMore(flags: seq<bool>, i: nat)
    requires i < |flags| && !flags[i]
    ensures Count(flags[i := true]) == Count(flags) + 1
  {
    if i == 0 { assert flags[0 := true][1..] == flags[1..]; }
    else {
      CountOneMore(flags[1..], i - 1);
      assert flags[i := true][1..] == flags[1..][i - 1 := true];
    }
  }

  lemma {:induction false} CountNone(n: nat)
    ensures Count(seq(n, _ => false)) == 0
  {
    if n > 0 {
      CountNone(n - 1);
      assert seq(n, _ => false)[1..] == seq(n - 1, _ => false);
    }
  }

  /** The groups so far, possibly with some of what is still being found. */
  predicate Between(before: seq<seq<Item>>, now: seq<seq<Item>>, found: seq<seq<Item>>) {
    before <= now <= before + found
  }

  class Analysis {
    const inputs: seq<Item>
    const state: Exact.WorkState
    var skipped: seq<bool>
    var skippedFiles: nat
    var compared: nat
    var groups: seq<seq<Item>>

    /** An input is skipped only if it is not usable; the counter counts distinct inputs. */
    ghost predicate Valid()
      reads this, state
    {
      && state.Valid() && state.open == 0 && Numbered(inputs) && Admissible(inputs)
      && |skipped| == |inputs| && skippedFiles == Count(skipped)
      && forall i :: 0 <= i < |inputs| && skipped[i] ==> !Usable(inputs, inputs[i])
    }

    /** The inputs marked as skipped. */
    ghost function Skipped(): set<Item>
      requires |skipped| == |inputs|
      reads this`skipped
    {
      Marked(inputs, skipped)
    }

    lemma SkippedAt(i: nat)
      requires Valid() && i < |inputs|
      ensures inputs[i] in Skipped() <==> skipped[i]
    {
    }

    constructor (inputs: seq<Item>, state: Exact.WorkState)
      requires Numbered(inputs) && Admissible(inputs) && state.Valid() && state.open == 0
      ensures Valid() && this.inputs == inputs && this.state == state && groups == [] && Skipped() == {}
    {
      this.inputs, this.state := inputs, state;
      skipped := seq(|inputs|, _ => false);
      skippedFiles, compared, groups := 0, 0, [];
      CountNone(|inputs|);
    }

    lemma MarkedOne(before: seq<bool>, x: Item)
      requires Numbered(inputs) && |before| == |skipped| == |inputs| && x in inputs
      requires skipped == before[x.ordinal := true]
      ensures Skipped() == Marked(inputs, before) + {x}
    {
      var m :| 0 <= m < |inputs| && inputs[m] == x;
      assert x.ordinal == m;
      forall y ensures y in Skipped() <==> y in Marked(inputs, before) + {x} {
        if y == x { assert skipped[m]; }
        assert forall i :: 0 <= i < |inputs| && i != m ==> skipped[i] == before[i];
      }
    }

    method MarkSkipped(x: Item)
      requires Valid() && x in inputs && !Usable(inputs, x)
      modifies this`skipped, this`skippedFiles
      ensures Valid() && Skipped() == old(Skipped()) + {x}
    {
      hide Usable, Count, Admissible;
      if !skipped[x.ordinal] {
        CountOneMore(skipped, x.ordinal);
        skipped := skipped[x.ordinal := true];
        skippedFiles := skippedFiles + 1;
      }
      MarkedOne(old(skipped), x);
    }

    /** One unsafe member invalidates its whole hash group. */
    method SkipGroup(h: seq<Item>)
      requires Valid() && At(inputs, AtHash, h) && !Good(h)
      modifies this`skipped, this`skippedFiles
      ensures Valid() && Skipped() == old(Skipped()) + SetOf(h)
    {
      BadGroupIsUnusable(inputs, h);
      var i := 0;
      while i < |h|
        invariant 0 <= i <= |h| && Valid() && Skipped() == old(Skipped()) + SetOf(h[..i])
      {
        assert h[i] in h;
        MarkSkipped(h[i]);
        SetOfMore(h, i);
        i := i + 1;
      }
      assert h[..i] == h;
    }

    /** Exact comparison and finalization of one hash group. */
    method HashGroup(h: seq<Item>) returns (stop: Option<Failure>)
      requires Valid() && At(inputs, AtHash, h)
      modifies this, state
      ensures Valid() && state.bytesRead <= old(state.bytesRead) + GroupCost(AtHash, h)
      ensures Between(old(groups), groups, Found(AtHash, h))
      ensures (stop.None? ==> groups == old(groups) + Found(AtHash, h))
      ensures stop != Some(Exact.Unsafe)
      ensures Skipped() == old(Skipped()) + if stop.None? then Lost(AtHash, h) else {}
      ensures old(state.Calm()) ==> state.Calm()
      ensures old(state.Calm()) && old(state.bytesRead) + GroupCost(AtHash, h) <= state.limit ==> stop.None?
      ensures stop.Some? ==> state.Explains(stop)
      ensures stop.None? ==> state.stops == old(state.stops)
    {
      hide Exact.WorkState.Explains, Exact.WorkState.Met, Exact.WorkState.Calm, Exact.WorkState.Asked;
      hide Exact.Heard, Exact.Coming;
      hide Exact.Cost, Exact.Comparable, Exact.BatchesCost, Keep, At, GroupBy;
      stop := None;
      if |h| < 2 || forall x :: x in h ==> x.keeperOnly { return; }
      GroupIsComparable(inputs, h);
      var classes := Exact.ExactClasses(state, h);
      if classes.Stop? {
        if classes.failure != Exact.Unsafe { return Some(classes.failure); }
        SkipGroup(h);
        return;
      }
      stop := Finalize(state, h);
      if stop.Some? {
        if stop.value != Exact.Unsafe { return; }
        SkipGroup(h);
        return None;
      }
      Offer(classes.value);
    }

    /** The classes worth offering, in order. */
    method Offer(found: seq<seq<Item>>)
      modifies this`groups
      ensures groups == old(groups) + Eligibles(found)
    {
      var i := 0;
      while i < |found|
        invariant 0 <= i <= |found| && groups == old(groups) + Eligibles(found[..i])
      {
        EligiblesStep(found, i);
        if !(|found[i]| < 2 || forall x: Item :: x in found[i] ==> x.keeperOnly) {
          groups := groups + [found[i]];
        }
        i := i + 1;
      }
      assert found[..i] == found;
    }

    /** The digest loop over one group: unsafe items are skipped, the others collected by digest. */
    method Digests(stage: Stage, g: seq<Item>) returns (stop: Option<Failure>, m: map<nat, seq<Item>>)
      requires Valid() && stage != AtHash && At(inputs, stage, g)
      modifies this`skipped, this`skippedFiles, this`compared, state
      ensures Valid() && state.bytesRead <= old(state.bytesRead) + PhaseCost(stage, g)
      ensures stop.None? ==> Collects(m, Keep(g, PhaseTest(stage)), NextLevel(stage))
      ensures stop != Some(Exact.Unsafe)
      ensures old(Skipped()) <= Skipped() <= old(Skipped()) + Failing(stage, g)
      ensures stop.None? ==> Skipped() == old(Skipped()) + Failing(stage, g)
      ensures old(state.Calm()) ==> state.Calm()
      ensures old(state.Calm()) && old(state.bytesRead) + PhaseCost(stage, g) <= state.limit ==> stop.None?
      ensures stop.Some? ==> state.Explains(stop)
      ensures stop.None? ==>
        compared == old(compared) + if stage == AtSample then |Keep(g, PhaseTest(stage))| else 0
      ensures stop.None? ==> state.stops == old(state.stops)
    {
      hide Exact.WorkState.Explains, Exact.WorkState.Met, Exact.WorkState.Calm, Exact.WorkState.Asked;
      hide Exact.Heard, Exact.Coming;
      hide PhaseCost, Keep, SampleCost, Collects, Usable, Numbered, Admissible, Count, Failing, Marked;
      hide Holds, PhaseTest;
      stop, m := None, map[];
      var i := 0;
      DigestsStart(stage, g);
      NothingFails(stage, g);
      while i < |g|
        invariant 0 <= i <= |g| && Valid() && stop.None?
        invariant Skipped() == old(Skipped()) + Failing(stage, g[..i])
        invariant compared == old(compared) + if stage == AtSample then |Keep(g[..i], PhaseTest(stage))| else 0
        invariant Collects(m, Keep(g[..i], PhaseTest(stage)), NextLevel(stage))
        invariant state.bytesRead + PhaseCost(stage, g[i..]) <= old(state.bytesRead) + PhaseCost(stage, g)
        invariant state.stops == old(state.stops) && (old(state.Calm()) ==> state.Calm())
      {
        var x := g[i];
        assert x in g && g[..i + 1] == g[..i] + [x];
        DigestsStep(inputs, stage, g, i, m);
        FailingMore(stage, g, i);
        var r;
        if stage == AtBucket {
          r := SampleDigest(state, x);
        } else {
          r := FullDigest(state, x);
          if r.Done? { compared := compared + 1; }
        }
        match r {
          case Done(digest) =>
            m := Push(m, digest, x);
          case Stop(failure) =>
            if failure != Exact.Unsafe {
              FailingPart(stage, g, i);
              return Some(failure), m;
            }
            MarkSkipped(x);
        }
        i := i + 1;
      }
      assert g[..i] == g;
    }

    /** Each hash group of a sample group. */
    method EachHash(gs: seq<seq<Item>>) returns (stop: Option<Failure>)
      requires Valid() && forall g :: g in gs ==> At(inputs, AtHash, g)
      modifies this, state
      ensures Valid() && state.bytesRead <= old(state.bytesRead) + GroupsCost(AtHash, gs)
      ensures Between(old(groups), groups, AllFound(AtHash, gs))
      ensures stop.None? ==> groups == old(groups) + AllFound(AtHash, gs)
      ensures stop != Some(Exact.Unsafe)
      ensures old(Skipped()) <= Skipped() <= old(Skipped()) + AllLost(AtHash, gs)
      ensures stop.None? ==> Skipped() == old(Skipped()) + AllLost(AtHash, gs)
      ensures old(state.Calm()) ==> state.Calm()
      ensures old(state.Calm()) && old(state.bytesRead) + GroupsCost(AtHash, gs) <= state.limit ==> stop.None?
      ensures stop.Some? ==> state.Explains(stop)
      ensures stop.None? ==> state.stops == old(state.stops)
    {
      FoundStart(AtHash, gs);
      hide Found, AllFound, GroupCost, GroupsCost, Lost, AllLost, At, Numbered, Admissible, Count, Usable;
      stop := None;
      var i := 0;
      while i < |gs|
        invariant 0 <= i <= |gs| && Valid() && stop.None?
        invariant old(groups) <= groups && groups + AllFound(AtHash, gs[i..]) == old(groups) + AllFound(AtHash, gs)
        invariant Skipped() == old(Skipped()) + AllLost(AtHash, gs[..i])
        invariant state.bytesRead + GroupsCost(AtHash, gs[i..]) <= old(state.bytesRead) + GroupsCost(AtHash, gs)
        invariant state.stops == old(state.stops) && (old(state.Calm()) ==> state.Calm())
      {
        assert gs[i] in gs;
        FoundStep(AtHash, gs, i);
        LostStep(AtHash, gs, i);
        ghost var before := groups;
        stop := HashGroup(gs[i]);
        BetweenStep(old(groups), before, groups, Found(AtHash, gs[i]), AllFound(AtHash, gs[i + 1..]),
                    AllFound(AtHash, gs));
        if stop.Some? { return; }
        i := i + 1;
      }
      assert gs[..i] == gs;
    }

    /** Full digests of one sample group, then each hash group. */
    method SampleGroup(g: seq<Item>) returns (stop: Option<Failure>)
      requires Valid() && At(inputs, AtSample, g)
      modifies this, state
      ensures Valid() && state.bytesRead <= old(state.bytesRead) + GroupCost(AtSample, g)
      ensures Between(old(groups), groups, Found(AtSample, g))
      ensures stop.None? ==> groups == old(groups) + Found(AtSample, g)
      ensures stop != Some(Exact.Unsafe)
      ensures old(Skipped()) <= Skipped() <= old(Skipped()) + Lost(AtSample, g)
      ensures stop.None? ==> Skipped() == old(Skipped()) + Lost(AtSample, g)
      ensures old(state.Calm()) ==> state.Calm()
      ensures old(state.Calm()) && old(state.bytesRead) + GroupCost(AtSample, g) <= state.limit ==> stop.None?
      ensures stop.Some? ==> state.Explains(stop)
      ensures stop.None? ==> state.stops == old(state.stops)
    {
      hide At, Keep, GroupBy, Usable, Collects, PhaseCost, Failing, AllFound, AllLost, GroupsCost;
      hide Numbered, Admissible, Count;
      stop := None;
      if |g| < 2 || forall x :: x in g ==> x.keeperOnly { return; }
      var m;
      stop, m := Digests(AtSample, g);
      if stop.Some? { return; }
      SplitReaches(inputs, AtSample, g);
      var subgroups := StableGroups(m, Keep(g, PhaseTest(AtSample)), NextLevel(AtSample));
      assert subgroups == Split(AtSample, g);
      stop := EachHash(subgroups);
    }

    /** Each sample group of a size bucket. */
    method EachSample(gs: seq<seq<Item>>) returns (stop: Option<Failure>)
      requires Valid() && forall g :: g in gs ==> At(inputs, AtSample, g)
      modifies this, state
      ensures Valid() && state.bytesRead <= old(state.bytesRead) + GroupsCost(AtSample, gs)
      ensures Between(old(groups), groups, AllFound(AtSample, gs))
      ensures stop.None? ==> groups == old(groups) + AllFound(AtSample, gs)
      ensures stop != Some(Exact.Unsafe)
      ensures old(Skipped()) <= Skipped() <= old(Skipped()) + AllLost(AtSample, gs)
      ensures stop.None? ==> Skipped() == old(Skipped()) + AllLost(AtSample, gs)
      ensures old(state.Calm()) ==> state.Calm()
      ensures old(state.Calm()) && old(state.bytesRead) + GroupsCost(AtSample, gs) <= state.limit ==> stop.None?
      ensures stop.Some? ==> state.Explains(stop)
      ensures stop.None? ==> state.stops == old(state.stops)
    {
      FoundStart(AtSample, gs);
      hide Found, AllFound, GroupCost, GroupsCost, Lost, AllLost, At, Numbered, Admissible, Count, Usable;
      stop := None;
      var i := 0;
      while i < |gs|
        invariant 0 <= i <= |gs| && Valid() && stop.None?
        invariant old(groups) <= groups && groups + AllFound(AtSample, gs[i..]) == old(groups) + AllFound(AtSample, gs)
        invariant Skipped() == old(Skipped()) + AllLost(AtSample, gs[..i])
        invariant state.bytesRead + GroupsCost(AtSample, gs[i..]) <= old(state.bytesRead) + GroupsCost(AtSample, gs)
        invariant state.stops == old(state.stops) && (old(state.Calm()) ==> state.Calm())
      {
        assert gs[i] in gs;
        FoundStep(AtSample, gs, i);
        LostStep(AtSample, gs, i);
        ghost var before := groups;
        stop := SampleGroup(gs[i]);
        BetweenStep(old(groups), before, groups, Found(AtSample, gs[i]), AllFound(AtSample, gs[i + 1..]),
                    AllFound(AtSample, gs));
        if stop.Some? { return; }
        i := i + 1;
      }
      assert gs[..i] == gs;
    }

    /** Sample digests of one size bucket, then each sample group. */
    method BucketGroup(g: seq<Item>) returns (stop: Option<Failure>)
      requires Valid() && At(inputs, AtBucket, g)
      modifies this, state
      ensures Valid() && state.bytesRead <= old(state.bytesRead) + GroupCost(AtBucket, g)
      ensures Between(old(groups), groups, Found(AtBucket, g))
      ensures stop.None? ==> groups == old(groups) + Found(AtBucket, g)
      ensures stop != Some(Exact.Unsafe)
      ensures old(Skipped()) <= Skipped() <= old(Skipped()) + Lost(AtBucket, g)
      ensures stop.None? ==> Skipped() == old(Skipped()) + Lost(AtBucket, g)
      ensures old(state.Calm()) ==> state.Calm()
      ensures old(state.Calm()) && old(state.bytesRead) + GroupCost(AtBucket, g) <= state.limit ==> stop.None?
      ensures stop.Some? ==> state.Explains(stop)
      ensures stop.None? ==> state.stops == old(state.stops)
    {
      hide At, Keep, GroupBy, Usable, Collects, PhaseCost, Failing, AllFound, AllLost, GroupsCost;
      hide Numbered, Admissible, Count;
      stop := None;
      if |g| < 2 || forall x :: x in g ==> x.keeperOnly { return; }
      var m;
      stop, m := Digests(AtBucket, g);
      if stop.Some? { return; }
      SplitReaches(inputs, AtBucket, g);
      var subgroups := StableGroups(m, Keep(g, PhaseTest(AtBucket)), NextLevel(AtBucket));
      assert subgroups == Split(AtBucket, g);
      stop := EachSample(subgroups);
    }

    /** Revalidation of every input, before anything is read. */
    method Verify() returns (stop: Option<Failure>, verified: seq<Item>)
      requires Valid() && Skipped() == {}
      modifies this`skipped, this`skippedFiles, state`signals, state`looks, state`stops
      ensures Valid() && stop != Some(Exact.Unsafe)
      ensures stop.None? ==> verified == Keep(inputs, Revalidates) && Skipped() == Unverified(inputs)
      ensures Skipped() <= Unverified(inputs)
      ensures old(state.Calm()) ==> stop.None? && state.Calm()
      ensures stop.Some? ==> state.Explains(stop)
      ensures stop.None? ==> state.stops == old(state.stops) && state.looks == old(state.looks) + 2 * |inputs|
    {
      hide Exact.WorkState.Explains, Exact.WorkState.Met, Exact.WorkState.Calm, Exact.WorkState.Asked;
      hide Exact.Heard, Exact.Coming, Usable;
      stop, verified := None, [];
      var i := 0;
      while i < |inputs|
        invariant 0 <= i <= |inputs| && Valid() && stop.None? && verified == Keep(inputs[..i], Revalidates)
        invariant Skipped() == Unverified(inputs[..i]) && Unverified(inputs[..i]) <= Unverified(inputs)
        invariant state.looks == old(state.looks) + 2 * i
        invariant state.stops == old(state.stops) && (old(state.Calm()) ==> state.Calm())
      {
        var x := inputs[i];
        VerifyStep(inputs, i);
        stop := state.Checkpoint();
        if stop.Some? { return; }
        stop := state.Checkpoint();
        if stop.Some? { return; }
        if x.revalidates {
          verified := verified + [x];
        } else {
          MarkSkipped(x);
        }
        i := i + 1;
      }
      assert inputs[..i] == inputs;
    }

    /**
     * `analyze`.  A complete run gives the whole answer and a stopped one a
     * prefix of it; no skipped input is in a group; nothing stops it but a
     * cancellation, the deadline or the read limit.
     */
    method Run() returns (stop: Option<Failure>, ghost done: nat)
      requires Valid() && groups == [] && state.bytesRead == 0 && Skipped() == {}
      modifies this, state
      ensures Valid() && state.bytesRead <= Min(state.limit, TotalCost(inputs))
      ensures groups <= Answer(inputs) && (stop.None? ==> groups == Answer(inputs))
      ensures stop != Some(Exact.Unsafe)
      ensures Partly(inputs, done, groups, Skipped())
      ensures stop.None? ==> Skipped() == Unverified(inputs) + AllLost(AtBucket, SizeBuckets(inputs))
      ensures old(state.Calm()) && TotalCost(inputs) <= state.limit ==> stop.None?
      ensures stop.Some? ==> state.Explains(stop)
      ensures stop.None? ==> state.stops == old(state.stops)
      ensures stop.None? && old(state.looks == state.stops == 0) ==>
        Exact.Cancel !in state.all[..Min(2 * |inputs|, |state.all|)]
    {
      hide At, Keep, GroupBy, Usable, Numbered, Admissible, Count;
      var verified;
      done := 0;
      stop, verified := Verify();
      assert stop.None? && old(state.looks == state.stops == 0) ==>
        Exact.Cancel !in state.all[..Min(2 * |inputs|, |state.all|)];
      NothingDone(inputs);
      if stop.Some? { return; }
      BucketsReach(inputs);
      var buckets := MakeBuckets(verified);
      stop, done := EachBucket(buckets);
    }

    /** Each size bucket; `done` of them were finished. */
    method EachBucket(buckets: seq<seq<Item>>) returns (stop: Option<Failure>, ghost done: nat)
      requires Valid() && groups == []
      requires forall b :: b in buckets ==> At(inputs, AtBucket, b)
      modifies this, state
      ensures Valid() && state.bytesRead <= old(state.bytesRead) + GroupsCost(AtBucket, buckets)
      ensures done <= |buckets| && (stop.None? ==> done == |buckets|)
      ensures var next := Min(done + 1, |buckets|);
        && AllFound(AtBucket, buckets[..done]) <= groups <= AllFound(AtBucket, buckets[..next])
        && old(Skipped()) + AllLost(AtBucket, buckets[..done]) <= Skipped()
        && Skipped() <= old(Skipped()) + AllLost(AtBucket, buckets[..next])
      ensures groups <= AllFound(AtBucket, buckets)
      ensures stop.None? ==>
        groups == AllFound(AtBucket, buckets) && Skipped() == old(Skipped()) + AllLost(AtBucket, buckets)
      ensures stop != Some(Exact.Unsafe)
      ensures old(state.Calm()) && old(state.bytesRead) + GroupsCost(AtBucket, buckets) <= state.limit ==>
        stop.None?
      ensures stop.Some? ==> state.Explains(stop)
      ensures stop.None? ==> state.stops == old(state.stops)
    {
      FoundStart(AtBucket, buckets);
      hide At, Keep, GroupBy, Usable, Found, AllFound, GroupCost, GroupsCost, Lost, AllLost, Count;
      hide Numbered, Admissible;
      stop, done := None, 0;
      var i := 0;
      while i < |buckets|
        invariant 0 <= i == done <= |buckets| && Valid() && stop.None?
        invariant groups == AllFound(AtBucket, buckets[..i])
        invariant Skipped() == old(Skipped()) + AllLost(AtBucket, buckets[..i])
        invariant state.bytesRead + GroupsCost(AtBucket, buckets[i..]) <=
          old(state.bytesRead) + GroupsCost(AtBucket, buckets)
        invariant state.stops == old(state.stops) && (old(state.Calm()) ==> state.Calm())
      {
        assert buckets[i] in buckets;
        FoundStep(AtBucket, buckets, i);
        FoundMore(AtBucket, buckets, i);
        FoundPrefix(AtBucket, buckets, i + 1);
        LostStep(AtBucket, buckets, i);
        stop := BucketGroup(buckets[i]);
        if stop.Some? { return; }
        i := i + 1;
        done := i;
      }
      assert buckets[..i] == buckets;
    }
  }

  /** Before the first bucket nothing is found, and only what fails revalidation is left out. */
  lemma NothingDone(inputs: seq<Item>)
    ensures forall skipped :: skipped <= Unverified(inputs) ==> Partly(inputs, 0, [], skipped)
  {
    var buckets := SizeBuckets(inputs);
    assert AllFound(AtBucket, buckets[..0]) == [] && AllLost(AtBucket, buckets[..0]) == {};
    hide SizeBuckets, AllFound, AllLost;
  }

  lemma {:induction false} FoundMore(stage: Stage, gs: seq<seq<Item>>, i: nat)
    requires i < |gs|
    ensures AllFound(stage, gs[..i + 1]) == AllFound(stage, gs[..i]) + Found(stage, gs[i])
  {
    hide Found;
    if i == 0 {
      assert gs[..1][1..] == [] && AllFound(stage, []) == [];
    } else {
      FoundMore(stage, gs[1..], i - 1);
      assert gs[1..][..i] == gs[..i + 1][1..] && gs[1..][..i - 1] == gs[..i][1..];
    }
  }

  lemma {:induction false} FoundPrefix(stage: Stage, gs: seq<seq<Item>>, i: nat)
    requires i <= |gs|
    ensures AllFound(stage, gs[..i]) <= AllFound(stage, gs)
    decreases |gs| - i
  {
    if i == |gs| {
      assert gs[..i] == gs;
    } else {
      FoundMore(stage, gs, i);
      FoundPrefix(stage, gs, i + 1);
    }
  }

  lemma SetOfMore(h: seq<Item>, i: nat)
    requires i < |h|
    ensures SetOf(h[..i + 1]) == SetOf(h[..i]) + {h[i]}
  {
    assert h[..i + 1] == h[..i] + [h[i]];
  }

  lemma VerifyStep(inputs: seq<Item>, i: nat)
    requires i < |inputs|
    ensures inputs[i] in inputs
    ensures Keep(inputs[..i + 1], Revalidates) ==
      Keep(inputs[..i], Revalidates) + if inputs[i].revalidates then [inputs[i]] else []
    ensures !inputs[i].revalidates ==> !Usable(inputs, inputs[i])
    ensures Unverified(inputs[..i + 1]) ==
      Unverified(inputs[..i]) + if inputs[i].revalidates then {} else {inputs[i]}
    ensures Unverified(inputs[..i + 1]) <= Unverified(inputs)
  {
    var x := inputs[i];
    assert forall y :: y in inputs[..i + 1] ==> y in inputs;
    assert inputs[..i + 1] == inputs[..i] + [x];
    KeepAppend(inputs[..i], [x], Revalidates);
    assert Keep([x], Revalidates) == (if x.revalidates then [x] else []) + Keep([x][1..], Revalidates);
    assert [x][1..] == [];
  }

  lemma FoundStart(stage: Stage, gs: seq<seq<Item>>)
    ensures gs[0..] == gs && AllFound(stage, gs[|gs|..]) == [] && GroupsCost(stage, gs[|gs|..]) == 0
    ensures AllFound(stage, gs[..0]) == [] && AllLost(stage, gs[..0]) == {}
  {
  }

  lemma LostStep(stage: Stage, gs: seq<seq<Item>>, i: nat)
    requires i < |gs|
    ensures AllLost(stage, gs[..i + 1]) == AllLost(stage, gs[..i]) + Lost(stage, gs[i])
    ensures AllLost(stage, gs[..i + 1]) <= AllLost(stage, gs)
  {
    assert gs[..i + 1][..i] == gs[..i];
    forall x | x in AllLost(stage, gs[..i + 1]) ensures x in AllLost(stage, gs) {
      AllLostMembers(stage, gs[..i + 1], x);
      AllLostMembers(stage, gs, x);
      var k :| 0 <= k < i + 1 && x in Lost(stage, gs[..i + 1][k]);
      assert gs[..i + 1][k] == gs[k];
    }
  }

  lemma FoundStep(stage: Stage, gs: seq<seq<Item>>, i: nat)
    requires i < |gs|
    ensures AllFound(stage, gs[i..]) == Found(stage, gs[i]) + AllFound(stage, gs[i + 1..])
    ensures GroupsCost(stage, gs[i..]) == GroupCost(stage, gs[i]) + GroupsCost(stage, gs[i + 1..])
  {
    assert gs[i..][1..] == gs[i + 1..];
  }

  lemma BetweenStep(start: seq<seq<Item>>, before: seq<seq<Item>>, now: seq<seq<Item>>, found: seq<seq<Item>>,
                    rest: seq<seq<Item>>, all: seq<seq<Item>>)
    requires start <= before && before + (found + rest) == start + all && Between(before, now, found)
    ensures Between(start, now, all)
    ensures now == before + found ==> start <= now && now + rest == start + all
  {
    assert before + (found + rest) == (before + found) + rest;
  }

  lemma DigestsStart(stage: Stage, g: seq<Item>)
    requires stage != AtHash
    ensures Collects(map[], Keep(g[..0], PhaseTest(stage)), NextLevel(stage))
    ensures g[0..] == g && PhaseCost(stage, g[|g|..]) == 0
  {
  }

  /** What one digest contributes: to the map if the item passes the phase, to the skipped items if not. */
  lemma DigestsStep(inputs: seq<Item>, stage: Stage, g: seq<Item>, i: nat, m: map<nat, seq<Item>>)
    requires stage != AtHash && i < |g| && Collects(m, Keep(g[..i], PhaseTest(stage)), NextLevel(stage))
    ensures PhaseCost(stage, g[i..]) ==
      (if stage == AtBucket then SampleCost(g[i]) else |g[i].contents|) + PhaseCost(stage, g[i + 1..])
    ensures var x := g[i];
      if Holds(PhaseTest(stage), x)
      then Collects(Push(m, if stage == AtBucket then x.sample else x.full, x), Keep(g[..i + 1], PhaseTest(stage)),
                    NextLevel(stage))
      else Collects(m, Keep(g[..i + 1], PhaseTest(stage)), NextLevel(stage)) && !Usable(inputs, x)
    ensures |Keep(g[..i + 1], PhaseTest(stage))| ==
      |Keep(g[..i], PhaseTest(stage))| + if Holds(PhaseTest(stage), g[i]) then 1 else 0
    ensures Holds(PhaseTest(stage), g[i])
      <==> (if stage == AtBucket then g[i].sampling == Steady else g[i].hashing == Steady)
  {
    var x, t := g[i], PhaseTest(stage);
    assert g[i..][1..] == g[i + 1..];
    assert g[..i + 1] == g[..i] + [x];
    KeepAppend(g[..i], [x], t);
    assert [x][1..] == [];
    if Holds(t, x) {
      assert Keep([x], t) == [x] + Keep([x][1..], t) == [x];
      PushCollects(m, Keep(g[..i], t), NextLevel(stage), if stage == AtBucket then x.sample else x.full, x);
    } else {
      assert Keep(g[..i], t) + [] == Keep(g[..i], t);
    }
  }

  lemma {:induction false} EligiblesStep(gs: seq<seq<Item>>, i: nat)
    requires i < |gs|
    ensures Eligibles(gs[..i + 1]) == Eligibles(gs[..i]) + if Eligible(gs[i]) then [gs[i]] else []
  {
    if i > 0 {
      EligiblesStep(gs[1..], i - 1);
      assert gs[1..][..i] == gs[..i + 1][1..] && gs[1..][..i - 1] == gs[..i][1..];
    }
  }

  // ---- The report -------------------------------------------------------

  datatype Report = Refused
                  | Analyzed(groups: seq<seq<Item>>, complete: bool, cancelled: bool, limited: bool,
                             skipped: seq<bool>, skippedFiles: nat, bytesRead: nat)

  lemma AnswerIsUsable(inputs: seq<Item>, c: seq<Item>, x: Item)
    requires c in Answer(inputs) && x in c
    ensures x in inputs && Usable(inputs, x)
  {
    CohortFinds(inputs, c);
    Members(inputs, c[0]);
    KeepMembers(Cohort(inputs, c[0]), KeyIs(ByBytes, KeyAt(ByBytes, c[0])));
    hide Answer, Cohort, Keep;
    assert x in Cohort(inputs, c[0]);
    forall y | y in inputs && Readable(y) && SameCohort(x, y) ensures y.comparing == Steady && y.finalizing == Steady {
      assert y in Cohort(inputs, c[0]);
    }
  }

  lemma PrefixOfAnswer(inputs: seq<Item>, groups: seq<seq<Item>>)
    requires groups <= Answer(inputs)
    ensures Disjoint(groups)
    ensures forall c :: c in groups ==> Eligible(c) && c in Answer(inputs)
    ensures forall c, x :: c in groups && x in c ==> x in inputs && Usable(inputs, x)
  {
    AnswerDisjoint(inputs);
    forall i, j | 0 <= i < j < |groups| ensures Apart(groups[i], groups[j]) {
      assert groups[i] == Answer(inputs)[i] && groups[j] == Answer(inputs)[j];
    }
    forall c | c in groups ensures c in Answer(inputs) {
      var i :| 0 <= i < |groups| && groups[i] == c;
      assert Answer(inputs)[i] == c;
    }
    forall c, x | c in groups && x in c ensures x in inputs && Usable(inputs, x) { AnswerIsUsable(inputs, c, x); }
  }

  /** The inputs at the marked positions. */
  function Marked(inputs: seq<Item>, flags: seq<bool>): set<Item>
    requires |flags| == |inputs|
  {
    set i | 0 <= i < |inputs| && flags[i] :: inputs[i]
  }

  /** A group the naive comparison would offer. */
  ghost predicate Naive(inputs: seq<Item>, c: seq<Item>) {
    Eligible(c) && exists x :: x in inputs && Usable(inputs, x) && c == Copies(inputs, x)
  }

  /**
   * The whole analysis.  Whatever stops it, the groups are disjoint, worth
   * offering, and free of skipped inputs, and a longer run only adds groups.
   * A complete run offers exactly what naive byte comparison would, and skips
   * exactly the inputs that fail in a phase they reach; a stopped one does so
   * for the buckets it has finished.
   */
  method Analyze(inputs: seq<Item>, limit: nat, signals: seq<Exact.Signal>, pieces: seq<nat>) returns (r: Report)
    requires Numbered(inputs)
    ensures r.Refused? <==> !Admissible(inputs)
    ensures r.Analyzed? ==>
      && r.groups <= Answer(inputs) && (r.complete ==> r.groups == Answer(inputs))
      && (r.complete <==> !r.cancelled && !r.limited) && !(r.cancelled && r.limited)
      && r.bytesRead <= Min(limit, TotalCost(inputs))
    ensures r.Analyzed? ==>
      && (r.cancelled ==> Exact.Cancel in signals)
      && (r.limited ==> Exact.Timeout in signals || r.bytesRead + Exact.CHUNK > limit)
    ensures r.Analyzed? && signals == [] && TotalCost(inputs) <= limit ==> r.complete
    ensures r.Analyzed? && r.complete ==> Exact.Cancel !in signals[..Min(2 * |inputs|, |signals|)]
    ensures r.Analyzed? ==> Disjoint(r.groups) && forall c :: c in r.groups ==> Eligible(c)
    ensures r.Analyzed? ==>
      && |r.skipped| == |inputs| && r.skippedFiles == Count(r.skipped)
      && forall c, x :: c in r.groups && x in c ==> x in inputs && !r.skipped[x.ordinal]
    ensures r.Analyzed? && r.complete ==> forall i :: 0 <= i < |inputs| ==> (r.skipped[i] <==> Fails(inputs, inputs[i]))
    ensures r.Analyzed? ==> exists done :: Partly(inputs, done, r.groups, Marked(inputs, r.skipped))
    ensures r.Analyzed? && r.complete && Deterministic(inputs) ==> forall c :: c in r.groups <==> Naive(inputs, c)
  {
    hide TotalCost, Answer, Disjoint, Usable, Copies, Deterministic, Eligible, Fails, Partly, Exact.WorkState.Asked;
    var ok := ValidateInputs(inputs);
    if !ok { return Refused; }
    var state := new Exact.WorkState(limit, signals, pieces);
    var analysis := new Analysis(inputs, state);
    var stop, done := analysis.Run();
    PrefixOfAnswer(inputs, analysis.groups);
    if Deterministic(inputs) {
      forall c ensures c in Answer(inputs) <==> Naive(inputs, c) { AnswerIsNaive(inputs, c); }
    }
    assert analysis.Skipped() == Marked(inputs, analysis.skipped);
    if stop.None? {
      forall i | 0 <= i < |inputs| ensures analysis.skipped[i] <==> Fails(inputs, inputs[i]) {
        LeftOut(inputs, inputs[i]);
        analysis.SkippedAt(i);
      }
    }
    assert stop.Some? ==> stop.value.Cancelled? || stop.value.Limited?;
    return Analyzed(analysis.groups, stop.None?, stop == Some(Exact.Cancelled), stop == Some(Exact.Limited),
                    analysis.skipped, analysis.skippedFiles, state.bytesRead);
  }
}
