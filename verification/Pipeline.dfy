/** The answer of the duplicate pipeline, level by level, and the naive answer it refines. */
module Pipeline {
  import opened Prelude
  import opened Grouping

  predicate Eligible(g: seq<Item>) { |g| >= 2 && exists x :: x in g && !x.keeperOnly }

  /** No member is unsafe while the group is compared and finalized. */
  predicate Good(g: seq<Item>) { forall x :: x in g ==> x.comparing == Steady && x.finalizing == Steady }

  datatype Stage = AtBucket | AtSample | AtHash

  function Eligibles(gs: seq<seq<Item>>): seq<seq<Item>> {
    if gs == [] then [] else (if Eligible(gs[0]) then [gs[0]] else []) + Eligibles(gs[1..])
  }

  function Rank(stage: Stage): nat {
    match stage case AtBucket => 2 case AtSample => 1 case AtHash => 0
  }

  /** The subgroups of a group that the next level sees. */
  function Split(stage: Stage, g: seq<Item>): seq<seq<Item>> {
    match stage
    case AtBucket => GroupBy(Keep(g, Samples), BySample)
    case AtSample => GroupBy(Keep(g, Hashes), ByFull)
    case AtHash => GroupBy(g, ByBytes)
  }

  function Below(stage: Stage): Stage
    requires stage != AtHash
  {
    if stage == AtBucket then AtSample else AtHash
  }

  /** The duplicate groups found in one group at a level. */
  function Found(stage: Stage, g: seq<Item>): seq<seq<Item>>
    decreases Rank(stage), 1, 0
  {
    if !Eligible(g) then []
    else if stage == AtHash then (if Good(g) then Eligibles(Split(stage, g)) else [])
    else AllFound(Below(stage), Split(stage, g))
  }

  function AllFound(stage: Stage, gs: seq<seq<Item>>): seq<seq<Item>>
    decreases Rank(stage), 2, |gs|
  {
    if gs == [] then [] else Found(stage, gs[0]) + AllFound(stage, gs[1..])
  }

  /** The whole answer. */
  function Answer(inputs: seq<Item>): seq<seq<Item>> {
    AllFound(AtBucket, GroupBy(Keep(inputs, Revalidates), ByBucket))
  }

  // ---- The naive answer -------------------------------------------------

  predicate SameCohort(x: Item, y: Item) {
    x.device == y.device && |x.contents| == |y.contents| && x.sample == y.sample && x.full == y.full
  }

  predicate Readable(x: Item) { x.revalidates && x.sampling == Steady && x.hashing == Steady }

  /** An input is usable if it is readable, and so is every readable input its digests put it together with. */
  predicate Usable(inputs: seq<Item>, x: Item) {
    && Readable(x)
    && forall y :: y in inputs && Readable(y) && SameCohort(x, y) ==> y.comparing == Steady && y.finalizing == Steady
  }

  function UsableSet(inputs: seq<Item>): set<Item> { set x | x in inputs && Usable(inputs, x) }

  /** The usable inputs with the device and the bytes of `x`: no digest, no bucket, no batch. */
  function Copies(inputs: seq<Item>, x: Item): seq<Item> {
    Keep(inputs, Both(In(UsableSet(inputs)), KeyIs(ByCopy, KeyAt(ByCopy, x))))
  }

  /** Digest functions may collide, but equal bytes have equal digests. */
  predicate Deterministic(inputs: seq<Item>) {
    forall x, y :: x in inputs && y in inputs && x.contents == y.contents ==> x.sample == y.sample && x.full == y.full
  }

  // ---- Refinement -------------------------------------------------------

  lemma {:induction false} EligiblesMembers(gs: seq<seq<Item>>)
    ensures forall c :: c in Eligibles(gs) <==> c in gs && Eligible(c)
  {
    if gs != [] { EligiblesMembers(gs[1..]); }
  }

  lemma {:induction false} AllFoundMembers(stage: Stage, gs: seq<seq<Item>>, c: seq<Item>)
    ensures c in AllFound(stage, gs) <==> exists i :: 0 <= i < |gs| && c in Found(stage, gs[i])
    decreases |gs|
  {
    if gs != [] {
      AllFoundMembers(stage, gs[1..], c);
      if c in AllFound(stage, gs[1..]) {
        var i :| 0 <= i < |gs[1..]| && c in Found(stage, gs[1..][i]);
        assert gs[i + 1] == gs[1..][i];
      }
      if i :| 0 <= i < |gs| && c in Found(stage, gs[i]) {
        if i > 0 { assert gs[1..][i - 1] == gs[i]; }
      }
    }
  }

  /** A group around an eligible class is eligible. */
  lemma WiderIsEligible(g: seq<Item>, t: Test)
    ensures Eligible(Keep(g, t)) ==> Eligible(g)
  {
    KeepMembers(g, t);
  }

  function Cohort(inputs: seq<Item>, x: Item): seq<Item> {
    GroupOf(Keep(SampleGroup(inputs, x), Hashes), ByFull, x)
  }

  function SampleGroup(inputs: seq<Item>, x: Item): seq<Item> {
    GroupOf(Keep(BucketOf(inputs, x), Samples), BySample, x)
  }

  function BucketOf(inputs: seq<Item>, x: Item): seq<Item> { GroupOf(Keep(inputs, Revalidates), ByBucket, x) }

  lemma HashFinds(h: seq<Item>, c: seq<Item>)
    ensures c in Found(AtHash, h) <==> Good(h) && Eligible(c) && c[0] in h && c == GroupOf(h, ByBytes, c[0])
  {
    EligiblesMembers(GroupBy(h, ByBytes));
    GroupMembers(h, ByBytes);
    if Eligible(c) && c == GroupOf(h, ByBytes, c[0]) { WiderIsEligible(h, KeyIs(ByBytes, KeyAt(ByBytes, c[0]))); }
  }

  /** What is found in a group is an eligible class of its members. */
  lemma {:induction false} FoundInside(stage: Stage, g: seq<Item>, c: seq<Item>)
    requires c in Found(stage, g)
    ensures Eligible(c) && forall x :: x in c ==> x in g
    decreases Rank(stage)
  {
    if stage == AtHash {
      HashFinds(g, c);
      KeepMembers(g, KeyIs(ByBytes, KeyAt(ByBytes, c[0])));
    } else {
      var gs := Split(stage, g);
      AllFoundMembers(Below(stage), gs, c);
      var i :| 0 <= i < |gs| && c in Found(Below(stage), gs[i]);
      FoundInside(Below(stage), gs[i], c);
      SplitInside(stage, g, gs[i]);
    }
  }

  lemma SplitInside(stage: Stage, g: seq<Item>, h: seq<Item>)
    requires h in Split(stage, g)
    ensures forall x :: x in h ==> x in g
  {
    var t := if stage == AtBucket then Samples else Hashes;
    var l := if stage == AtBucket then BySample else if stage == AtSample then ByFull else ByBytes;
    var k := if stage == AtHash then g else Keep(g, t);
    KeepMembers(g, t);
    GroupMembers(k, l);
    KeepMembers(k, KeyIs(l, KeyAt(l, h[0])));
  }

  /** One level of grouping: a class is found exactly in the group of its first member. */
  lemma SplitFinds(below: Stage, g: seq<Item>, l: Level, c: seq<Item>)
    ensures c in AllFound(below, GroupBy(g, l)) <==> c != [] && c[0] in g && c in Found(below, GroupOf(g, l, c[0]))
  {
    var gs := GroupBy(g, l);
    GroupMembers(g, l);
    AllFoundMembers(below, gs, c);
    hide GroupBy, Found, AllFound, Keep;
    if c in AllFound(below, gs) {
      var i :| 0 <= i < |gs| && c in Found(below, gs[i]);
      assert gs[i] in gs;
      FoundInside(below, gs[i], c);
      KeepMembers(g, KeyIs(l, KeyAt(l, gs[i][0])));
      assert c[0] in gs[i] && KeyAt(l, c[0]) == KeyAt(l, gs[i][0]);
    }
    if c != [] && c[0] in g && c in Found(below, GroupOf(g, l, c[0])) {
      assert GroupOf(g, l, c[0]) in gs;
      var i :| 0 <= i < |gs| && gs[i] == GroupOf(g, l, c[0]);
    }
  }

  /** The tests of the two upper levels. */
  function PhaseTest(stage: Stage): Test { if stage == AtBucket then Samples else Hashes }

  function NextLevel(stage: Stage): Level { if stage == AtBucket then BySample else ByFull }

  lemma GroupFinds(stage: Stage, g: seq<Item>, c: seq<Item>)
    requires stage != AtHash
    ensures c in Found(stage, g) <==>
      && Eligible(c) && c[0] in Keep(g, PhaseTest(stage))
      && c in Found(Below(stage), GroupOf(Keep(g, PhaseTest(stage)), NextLevel(stage), c[0]))
  {
    var k, l := Keep(g, PhaseTest(stage)), NextLevel(stage);
    assert Split(stage, g) == GroupBy(k, l);
    SplitFinds(Below(stage), k, l, c);
    if c != [] && c[0] in k && c in Found(Below(stage), GroupOf(k, l, c[0])) {
      FoundInside(Below(stage), GroupOf(k, l, c[0]), c);
      assert Eligible(GroupOf(k, l, c[0]));
      WiderIsEligible(k, KeyIs(l, KeyAt(l, c[0])));
      WiderIsEligible(g, PhaseTest(stage));
    }
    hide Keep, GroupBy, Eligible, AllFound;
  }

  lemma CohortFinds(inputs: seq<Item>, c: seq<Item>)
    ensures c in Answer(inputs) <==>
      && Eligible(c) && c[0] in inputs && Readable(c[0]) && Good(Cohort(inputs, c[0]))
      && c == GroupOf(Cohort(inputs, c[0]), ByBytes, c[0])
  {
    SplitFinds(AtBucket, Keep(inputs, Revalidates), ByBucket, c);
    if c != [] {
      var x := c[0];
      GroupFinds(AtBucket, BucketOf(inputs, x), c);
      GroupFinds(AtSample, SampleGroup(inputs, x), c);
      HashFinds(Cohort(inputs, x), c);
      Members(inputs, x);
      hide Keep, Good, Eligible, GroupBy, Found, AllFound;
    }
  }

  /** Who is in an input's bucket, sample group and cohort. */
  lemma Members(inputs: seq<Item>, x: Item)
    ensures forall y :: y in Cohort(inputs, x) <==> y in inputs && Readable(y) && SameCohort(x, y)
    ensures forall y :: y in Keep(SampleGroup(inputs, x), Hashes) <==>
      y in inputs && Readable(y) && y.device == x.device && |y.contents| == |x.contents| && y.sample == x.sample
    ensures forall y :: y in Keep(BucketOf(inputs, x), Samples) <==>
      y in inputs && y.revalidates && y.sampling == Steady && y.device == x.device && |y.contents| == |x.contents|
    ensures forall y :: y in Keep(inputs, Revalidates) <==> y in inputs && y.revalidates
  {
    KeepMembers(inputs, Revalidates);
    KeepMembers(Keep(inputs, Revalidates), KeyIs(ByBucket, KeyAt(ByBucket, x)));
    KeepMembers(BucketOf(inputs, x), Samples);
    KeepMembers(Keep(BucketOf(inputs, x), Samples), KeyIs(BySample, KeyAt(BySample, x)));
    KeepMembers(SampleGroup(inputs, x), Hashes);
    KeepMembers(Keep(SampleGroup(inputs, x), Hashes), KeyIs(ByFull, KeyAt(ByFull, x)));
    hide Keep;
  }

  /** The cohort as one filter of the inputs. */
  function CohortTest(x: Item): Test {
    var sampled := Both(Both(Revalidates, KeyIs(ByBucket, KeyAt(ByBucket, x))), Samples);
    Both(Both(Both(sampled, KeyIs(BySample, KeyAt(BySample, x))), Hashes), KeyIs(ByFull, KeyAt(ByFull, x)))
  }

  lemma CohortKeeps(inputs: seq<Item>, x: Item)
    ensures Cohort(inputs, x) == Keep(inputs, CohortTest(x))
  {
    var t1 := Both(Revalidates, KeyIs(ByBucket, KeyAt(ByBucket, x)));
    var t2 := Both(t1, Samples);
    var t3 := Both(t2, KeyIs(BySample, KeyAt(BySample, x)));
    var t4 := Both(t3, Hashes);
    KeepTwice(inputs, Revalidates, KeyIs(ByBucket, KeyAt(ByBucket, x)));
    KeepTwice(inputs, t1, Samples);
    KeepTwice(inputs, t2, KeyIs(BySample, KeyAt(BySample, x)));
    KeepTwice(inputs, t3, Hashes);
    KeepTwice(inputs, t4, KeyIs(ByFull, KeyAt(ByFull, x)));
    hide Keep;
  }

  lemma CohortIsGood(inputs: seq<Item>, x: Item)
    requires x in inputs && Readable(x)
    ensures Good(Cohort(inputs, x)) <==> Usable(inputs, x)
  {
    Members(inputs, x);
    hide Cohort;
  }

  lemma CopiesAreTheClass(inputs: seq<Item>, x: Item)
    requires Deterministic(inputs) && x in inputs && Usable(inputs, x)
    ensures GroupOf(Cohort(inputs, x), ByBytes, x) == Copies(inputs, x)
  {
    var t, k := CohortTest(x), KeyIs(ByBytes, KeyAt(ByBytes, x));
    CohortKeeps(inputs, x);
    KeepTwice(inputs, t, k);
    var u := Both(In(UsableSet(inputs)), KeyIs(ByCopy, KeyAt(ByCopy, x)));
    forall y | y in inputs ensures Holds(Both(t, k), y) <==> Holds(u, y) {
      CohortHolds(x, y);
      if y.device == x.device && y.contents == x.contents && Readable(y) {
        assert forall z :: SameCohort(y, z) <==> SameCohort(x, z);
      }
    }
    KeepAgrees(inputs, Both(t, k), u);
  }

  lemma BothHolds(a: Test, b: Test, y: Item)
    ensures Holds(Both(a, b), y) <==> Holds(a, y) && Holds(b, y)
  {
  }

  lemma CohortHolds(x: Item, y: Item)
    ensures Holds(CohortTest(x), y) <==> Readable(y) && SameCohort(x, y)
  {
    var t1 := Both(Revalidates, KeyIs(ByBucket, KeyAt(ByBucket, x)));
    var t2 := Both(t1, Samples);
    var t3 := Both(t2, KeyIs(BySample, KeyAt(BySample, x)));
    var t4 := Both(t3, Hashes);
    BothHolds(Revalidates, KeyIs(ByBucket, KeyAt(ByBucket, x)), y);
    BothHolds(t1, Samples, y);
    BothHolds(t2, KeyIs(BySample, KeyAt(BySample, x)), y);
    BothHolds(t3, Hashes, y);
    BothHolds(t4, KeyIs(ByFull, KeyAt(ByFull, x)), y);
  }

  /**
   * The pipeline refines the naive answer: its groups are exactly the eligible
   * sets of usable copies, whatever the digests collide on and however early
   * small or keeper-only groups are dropped.
   */
  lemma AnswerIsNaive(inputs: seq<Item>, c: seq<Item>)
    requires Deterministic(inputs)
    ensures c in Answer(inputs)
      <==> exists x :: x in inputs && Usable(inputs, x) && c == Copies(inputs, x) && Eligible(c)
  {
    CohortFinds(inputs, c);
    hide Answer, Cohort, Good, Deterministic;
    if c in Answer(inputs) {
      CohortIsGood(inputs, c[0]);
      CopiesAreTheClass(inputs, c[0]);
    }
    if x :| x in inputs && Usable(inputs, x) && c == Copies(inputs, x) && Eligible(c) {
      CopiesOfFirst(inputs, x);
      CohortIsGood(inputs, c[0]);
      CopiesAreTheClass(inputs, c[0]);
    }
  }

  lemma CopiesOfFirst(inputs: seq<Item>, x: Item)
    ensures forall y :: y in Copies(inputs, x) ==>
      y in inputs && Usable(inputs, y) && Copies(inputs, y) == Copies(inputs, x)
  {
    var t := Both(In(UsableSet(inputs)), KeyIs(ByCopy, KeyAt(ByCopy, x)));
    KeepMembers(inputs, t);
    assert forall y :: Holds(t, y) <==> y in UsableSet(inputs) && KeyAt(ByCopy, y) == KeyAt(ByCopy, x);
  }

  lemma CopiesWhenSteady(inputs: seq<Item>, x: Item)
    requires Good(inputs) && forall y :: y in inputs ==> Readable(y)
    ensures Copies(inputs, x) == GroupOf(inputs, ByCopy, x)
  {
    var a, b := In(UsableSet(inputs)), KeyIs(ByCopy, KeyAt(ByCopy, x));
    forall y | y in inputs ensures Holds(Both(a, b), y) <==> Holds(b, y) {
      BothHolds(a, b, y);
      assert Usable(inputs, y);
    }
    KeepAgrees(inputs, Both(a, b), b);
  }

  /** When no file misbehaves, the answer is the eligible groups of equal device and bytes. */
  lemma SteadyAnswer(inputs: seq<Item>, c: seq<Item>)
    requires Deterministic(inputs) && Good(inputs) && forall x :: x in inputs ==> Readable(x)
    ensures c in Answer(inputs) <==> c in GroupBy(inputs, ByCopy) && Eligible(c)
  {
    AnswerIsNaive(inputs, c);
    GroupMembers(inputs, ByCopy);
    forall x | x in inputs ensures Usable(inputs, x) && Copies(inputs, x) == GroupOf(inputs, ByCopy, x) {
      CopiesWhenSteady(inputs, x);
    }
    hide Answer, GroupBy, Copies, Usable, GroupOf, Eligible, Good;
  }

  // ---- No input is in two groups ----------------------------------------

  predicate Apart(g: seq<Item>, h: seq<Item>) { forall x :: x in g ==> x !in h }

  predicate Disjoint(gs: seq<seq<Item>>) {
    forall i, j :: 0 <= i < j < |gs| ==> Apart(gs[i], gs[j])
  }

  lemma {:induction false} GroupsDisjoint(items: seq<Item>, l: Level)
    ensures Disjoint(GroupBy(items, l))
    decreases |items|
  {
    if items != [] {
      var k := KeyAt(l, items[0]);
      var head, others := [items[0]] + Keep(items[1..], KeyIs(l, k)), Keep(items[1..], KeyIsNot(l, k));
      KeepMembers(items[1..], KeyIs(l, k));
      KeepMembers(items[1..], KeyIsNot(l, k));
      GroupsDisjoint(others, l);
      GroupMembers(others, l);
      forall g | g in GroupBy(others, l) ensures Apart(head, g) {
        KeepMembers(others, KeyIs(l, KeyAt(l, g[0])));
      }
    }
  }

  lemma {:induction false} EligiblesDisjoint(gs: seq<seq<Item>>)
    requires Disjoint(gs)
    ensures Disjoint(Eligibles(gs))
  {
    if gs != [] {
      assert Disjoint(gs[1..]) by { assert forall i :: 0 <= i < |gs[1..]| ==> gs[1..][i] == gs[i + 1]; }
      EligiblesDisjoint(gs[1..]);
      EligiblesMembers(gs[1..]);
      var rest := Eligibles(gs[1..]);
      forall i | 0 <= i < |rest| ensures Apart(gs[0], rest[i]) {
        assert rest[i] in rest;
        var j :| 0 <= j < |gs[1..]| && gs[1..][j] == rest[i];
        assert gs[j + 1] == rest[i];
      }
    }
  }

  lemma {:induction false} FoundDisjoint(stage: Stage, g: seq<Item>)
    ensures Disjoint(Found(stage, g))
    decreases Rank(stage), 1, 0
  {
    if Eligible(g) {
      match stage
      case AtHash =>
        GroupsDisjoint(g, ByBytes);
        EligiblesDisjoint(GroupBy(g, ByBytes));
      case AtBucket =>
        GroupsDisjoint(Keep(g, Samples), BySample);
        AllFoundDisjoint(AtSample, GroupBy(Keep(g, Samples), BySample));
      case AtSample =>
        GroupsDisjoint(Keep(g, Hashes), ByFull);
        AllFoundDisjoint(AtHash, GroupBy(Keep(g, Hashes), ByFull));
    }
  }

  lemma {:induction false} AllFoundDisjoint(stage: Stage, gs: seq<seq<Item>>)
    requires Disjoint(gs)
    ensures Disjoint(AllFound(stage, gs))
    decreases Rank(stage), 2, |gs|
  {
    if gs != [] {
      var head, rest := Found(stage, gs[0]), AllFound(stage, gs[1..]);
      assert Disjoint(gs[1..]) by { assert forall i :: 0 <= i < |gs[1..]| ==> gs[1..][i] == gs[i + 1]; }
      FoundDisjoint(stage, gs[0]);
      AllFoundDisjoint(stage, gs[1..]);
      hide Found, AllFound;
      forall i, j | 0 <= i < |head| && 0 <= j < |rest| ensures Apart(head[i], rest[j]) {
        assert head[i] in head && rest[j] in rest;
        FoundInside(stage, gs[0], head[i]);
        AllFoundMembers(stage, gs[1..], rest[j]);
        var m :| 0 <= m < |gs[1..]| && rest[j] in Found(stage, gs[1..][m]);
        FoundInside(stage, gs[1..][m], rest[j]);
        assert Apart(gs[0], gs[m + 1]);
      }
    }
  }

  /** No input is in two groups, and every group is worth offering. */
  lemma AnswerDisjoint(inputs: seq<Item>)
    ensures Disjoint(Answer(inputs))
    ensures forall c :: c in Answer(inputs) ==> Eligible(c)
  {
    var gs := GroupBy(Keep(inputs, Revalidates), ByBucket);
    GroupsDisjoint(Keep(inputs, Revalidates), ByBucket);
    AllFoundDisjoint(AtBucket, gs);
    forall c | c in Answer(inputs) ensures Eligible(c) { CohortFinds(inputs, c); }
  }
}
