/** Byte-for-byte comparison of a hash group in batches, within a read budget. */
module ExactComparison {
  import opened Prelude
  import opened Grouping

  const CHUNK := 65_536
  const PEERS_PER_BATCH := 15
  const MAX_OPEN := 16
  const MAX_READ_BYTES: nat := 0x10_0000_0000   // 64 GiB

  datatype Failure = Unsafe | Cancelled | Limited

  datatype Work<T> = Done(value: T) | Stop(failure: Failure)

  /** What a checkpoint meets: nothing, a cancellation, or the deadline. */
  datatype Signal = Go | Cancel | Timeout

  // ---- What it costs ----------------------------------------------------

  /** The bytes one read of a chunk yields. */
  function Chunk(c: seq<Byte>, offset: nat): seq<Byte> {
    c[Min(offset, |c|)..Min(offset + CHUNK, |c|)]
  }

  /** The peers that still agree after the chunk at `offset`. */
  function Agreeing(reference: Item, peers: seq<Item>, offset: nat): seq<Item> {
    if peers == [] then []
    else (if Chunk(peers[0].contents, offset) == Chunk(reference.contents, offset) then [peers[0]] else [])
         + Agreeing(reference, peers[1..], offset)
  }

  /** One chunk of the reference and of `n` peers. */
  function Round(length: nat, n: nat): nat { length * (1 + n) }

  lemma RoundGrows(length: nat, m: nat, n: nat)
    requires m <= n
    ensures Round(length, m) <= Round(length, n) && Round(length, 0) == length
    ensures Round(length, m + 1) == Round(length, m) + length
  {
    Times(length, 1 + m, 1 + n);
    assert length * (2 + m) == length * (1 + m) + length;
  }

  /** Bytes read in one batch from `offset` on: the reference once, and every peer while it agrees. */
  function BatchReads(reference: Item, peers: seq<Item>, offset: nat): nat
    decreases |reference.contents| - offset
  {
    if offset >= |reference.contents| || peers == [] then 0
    else
      var length := |Chunk(reference.contents, offset)|;
      Round(length, |peers|) + BatchReads(reference, Agreeing(reference, peers, offset), offset + length)
  }

  function BatchesCost(reference: Item, peers: seq<Item>): nat
    decreases |peers|
  {
    if peers == [] then 0
    else
      var n := Min(PEERS_PER_BATCH, |peers|);
      BatchReads(reference, peers[..n], 0) + BatchesCost(reference, peers[n..])
  }

  /** Those with other bytes than the first. */
  function Mismatches(items: seq<Item>): seq<Item>
    requires items != []
  {
    Keep(items[1..], KeyIsNot(ByBytes, KeyAt(ByBytes, items[0])))
  }

  /** Bytes read to partition a hash group. */
  function Cost(items: seq<Item>): nat
    decreases |items|
  {
    if |items| <= 1 then 0
    else
      KeepMembers(items[1..], KeyIsNot(ByBytes, KeyAt(ByBytes, items[0])));
      BatchesCost(items[0], items[1..]) + Cost(Mismatches(items))
  }

  /** Every comparison the partition makes is between steady, independent files of one size. */
  predicate Comparable(items: seq<Item>)
    decreases |items|
  {
    |items| <= 1 ||
    (KeepMembers(items[1..], KeyIsNot(ByBytes, KeyAt(ByBytes, items[0])));
     && items[0].comparing == Steady
     && (forall x :: x in items[1..] ==> Fit(items[0], x))
     && Comparable(Mismatches(items)))
  }

  predicate Fit(reference: Item, x: Item) {
    && x.comparing == Steady && |x.contents| == |reference.contents|
    && !(x.device == reference.device && x.inode == reference.inode)
  }

  lemma {:induction false} AgreeingCount(reference: Item, peers: seq<Item>, offset: nat)
    ensures |Agreeing(reference, peers, offset)| <= |peers|
    ensures (forall x :: x in peers ==> x.contents == reference.contents) ==>
      Agreeing(reference, peers, offset) == peers
  {
    if peers != [] { AgreeingCount(reference, peers[1..], offset); }
  }

  lemma Times(a: nat, b: nat, c: nat)
    requires b <= c
    ensures a * b <= a * c
  {
    assert a * c == a * b + a * (c - b);
  }

  lemma RoundAdds(a: nat, b: nat, n: nat)
    ensures Round(a + b, n) == Round(a, n) + Round(b, n) && Round(0, n) == 0
  {
  }

  /** A batch never costs more than all its files, and equal files cost exactly that. */
  lemma {:induction false} BatchBound(reference: Item, peers: seq<Item>, offset: nat)
    requires offset <= |reference.contents|
    ensures BatchReads(reference, peers, offset) <= Round(|reference.contents| - offset, |peers|)
    ensures peers != [] && (forall x :: x in peers ==> x.contents == reference.contents) ==>
      BatchReads(reference, peers, offset) == Round(|reference.contents| - offset, |peers|)
    decreases |reference.contents| - offset
  {
    hide Round, Agreeing;
    if offset < |reference.contents| && peers != [] {
      var length := |Chunk(reference.contents, offset)|;
      var live := Agreeing(reference, peers, offset);
      var rest := |reference.contents| - offset - length;
      AgreeingCount(reference, peers, offset);
      BatchBound(reference, live, offset + length);
      RoundGrows(rest, |live|, |peers|);
      RoundAdds(length, rest, |peers|);
    } else {
      RoundAdds(0, 0, |peers|);
    }
  }

  function Ceil15(p: nat): nat { (p + 14) / 15 }

  lemma SplitWork(s: nat, n: nat, p: nat)
    requires p > 0 && n == Min(PEERS_PER_BATCH, p)
    ensures s * (p + Ceil15(p)) == Round(s, n) + s * (p - n + Ceil15(p - n))
    ensures Ceil15(0) == 0
  {
    assert Ceil15(p) == 1 + Ceil15(p - n);
  }

  lemma {:induction false} BatchesBound(reference: Item, peers: seq<Item>)
    ensures BatchesCost(reference, peers) <= |reference.contents| * (|peers| + Ceil15(|peers|))
    ensures (forall x :: x in peers ==> x.contents == reference.contents) ==>
      BatchesCost(reference, peers) == |reference.contents| * (|peers| + Ceil15(|peers|))
    decreases |peers|
  {
    assert Ceil15(0) == 0;
    hide BatchReads, Ceil15, Round;
    if peers != [] {
      var s, n := |reference.contents|, Min(PEERS_PER_BATCH, |peers|);
      assert BatchesCost(reference, peers) == BatchReads(reference, peers[..n], 0) + BatchesCost(reference, peers[n..]);
      hide BatchesCost;
      BatchBound(reference, peers[..n], 0);
      BatchesBound(reference, peers[n..]);
      SplitWork(s, n, |peers|);
      assert forall x :: x in peers[..n] ==> x in peers;
      assert forall x :: x in peers[n..] ==> x in peers;
    }
  }

  /** Peers still to compare, with the reference read once per batch, summed over the references. */
  function Anchored(items: seq<Item>): nat
    decreases |items|
  {
    if |items| <= 1 then 0
    else
      KeepMembers(items[1..], KeyIsNot(ByBytes, KeyAt(ByBytes, items[0])));
      |items| - 1 + Ceil15(|items| - 1) + Anchored(Mismatches(items))
  }

  /**
   * Arbitrary contents of one size cost at most the anchors' work; `n` equal files
   * cost `n - 1 + ceil((n - 1) / 15)` sizes.
   */
  lemma {:induction false} CostBound(items: seq<Item>, s: nat)
    requires forall x :: x in items ==> |x.contents| == s
    ensures Cost(items) <= s * Anchored(items)
    ensures items != [] && (forall x :: x in items ==> x.contents == items[0].contents) ==>
      Cost(items) == s * (|items| - 1 + Ceil15(|items| - 1))
    decreases |items|
  {
    hide BatchesCost, BatchReads, Keep;
    if |items| > 1 {
      var p, rest := |items| - 1, Mismatches(items);
      KeepMembers(items[1..], KeyIsNot(ByBytes, KeyAt(ByBytes, items[0])));
      BatchesBound(items[0], items[1..]);
      assert items[0] in items;
      CostBound(rest, s);
      Distribute(s, p + Ceil15(p), Anchored(rest));
      assert rest != [] ==> rest[0] in rest;
      hide Ceil15;
    }
  }

  lemma Distribute(s: nat, a: nat, b: nat)
    ensures s * (a + b) == s * a + s * b
  {
  }

  predicate Independent(items: seq<Item>) {
    forall i, j :: 0 <= i < j < |items| ==> !(items[i].device == items[j].device && items[i].inode == items[j].inode)
  }

  /** Steady files of one size with distinct identities are comparable. */
  lemma {:induction false} SteadyIsComparable(items: seq<Item>)
    requires forall x, y :: x in items && y in items ==> |x.contents| == |y.contents|
    requires Independent(items)
    ensures Comparable(items) <==> |items| <= 1 || forall x :: x in items ==> x.comparing == Steady
    decreases |items|
  {
    if |items| > 1 {
      var t := KeyIsNot(ByBytes, KeyAt(ByBytes, items[0]));
      KeepMembers(items[1..], t);
      KeepIndependent(items[1..], t);
      forall x | x in items[1..] ensures !(x.device == items[0].device && x.inode == items[0].inode) {
        var m :| 0 <= m < |items[1..]| && items[1..][m] == x;
        assert items[m + 1] == x;
      }
      SteadyIsComparable(Mismatches(items));
      assert items == [items[0]] + items[1..] && items[0] in items;
      assert forall x :: x in Mismatches(items) ==> x in items;
    }
  }

  lemma {:induction false} KeepIndependent(items: seq<Item>, t: Test)
    requires Independent(items)
    ensures Independent(Keep(items, t))
  {
    if items != [] {
      KeepIndependent(items[1..], t);
      KeepMembers(items[1..], t);
      var rest := Keep(items[1..], t);
      forall j | 0 <= j < |rest| ensures !(items[0].device == rest[j].device && items[0].inode == rest[j].inode) {
        assert rest[j] in rest;
        var m :| 0 <= m < |items[1..]| && items[1..][m] == rest[j];
        assert items[m + 1] == rest[j];
      }
    }
  }

  // ---- Doing it ---------------------------------------------------------

  /** What a checkpoint makes of the signals to come, and what comes after it. */
  function Heard(signals: seq<Signal>): Option<Failure> {
    if signals == [] || signals[0] == Go then None else Some(if signals[0] == Cancel then Cancelled else Limited)
  }

  function Coming(signals: seq<Signal>): seq<Signal> { if signals == [] then [] else signals[1..] }

  class WorkState {
    const limit: nat
    var bytesRead: nat
    var signals: seq<Signal>   // what the coming checkpoints meet
    var pieces: seq<nat>       // how much the coming reads return at once
    ghost var delivered: nat   // bytes reads really returned
    ghost var open: nat        // inputs open now; each holds two descriptors
    ghost var peak: nat        // most inputs open at once so far
    ghost var looks: nat       // checkpoints so far
    ghost var calls: nat       // reads so far
    ghost var stops: nat       // cancellations and deadlines met so far
    ghost const all: seq<Signal>   // what checkpoints meet from the start

    ghost predicate Valid()
      reads this
    {
      && delivered <= bytesRead <= limit && open <= peak <= MAX_OPEN
      && Asked()
    }

    /** Each checkpoint took one signal, and none of them a cancellation that was not met. */
    ghost predicate Asked()
      reads this`signals, this`looks, this`stops
    {
      && |signals| == Max(0, |all| - looks) && signals == all[|all| - |signals|..]
      && (stops == 0 ==> Cancel !in all[..|all| - |signals|])
    }

    /** No checkpoint to come meets anything. */
    ghost predicate Calm()
      reads this`signals
    {
      forall signal :: signal in signals ==> signal == Go
    }

    /** A checkpoint so far met this signal. */
    ghost predicate Met(signal: Signal)
      reads this`signals
    {
      |signals| <= |all| && signal in all[..|all| - |signals|]
    }

    /** A cancellation or the deadline was met, or the read limit leaves no room for another chunk. */
    ghost predicate Explains(stop: Option<Failure>)
      reads this`signals, this`bytesRead
    {
      && (stop == Some(Cancelled) ==> Met(Cancel))
      && (stop == Some(Limited) ==> Met(Timeout) || bytesRead + CHUNK > limit)
    }

    constructor (limit: nat, signals: seq<Signal>, pieces: seq<nat>)
      ensures Valid() && this.limit == limit && bytesRead == 0 && this.signals == signals && open == 0
      ensures all == signals && stops == looks == 0
    {
      this.limit, this.signals, this.pieces, bytesRead, all := limit, signals, pieces, 0, signals;
      delivered, open, peak, looks, calls, stops := 0, 0, 0, 0, 0, 0;
    }

    /** What the checkpoint meets. */
    method Ask() returns (signal: Signal)
      requires Valid()
      modifies this`signals, this`looks, this`stops
      ensures Valid() && looks == old(looks) + 1
      ensures signal == if old(signals) == [] then Go else old(signals)[0]
      ensures signals == Coming(old(signals))
      ensures stops == old(stops) + if signal == Cancel then 1 else 0
      ensures signal != Go ==> Met(signal)
      ensures old(Calm()) ==> signal == Go && Calm()
    {
      signal := Go;
      if signals != [] {
        signal := signals[0];
        assert all[|all| - |signals|] == signals[0] && signals[0] in signals;
        assert forall later :: later in signals[1..] ==> later in signals;
        assert all[..|all| - |signals| + 1] == all[..|all| - |signals|] + [signal];
        signals := signals[1..];
      }
      looks := looks + 1;
      if signal == Cancel { stops := stops + 1; }
    }

    method Checkpoint() returns (stop: Option<Failure>)
      requires Valid()
      modifies this`signals, this`looks, this`stops
      ensures Valid() && looks == old(looks) + 1
      ensures stop == Heard(old(signals)) && signals == Coming(old(signals))
      ensures Explains(stop) && stop in {None, Some(Cancelled), Some(Limited)}
      ensures stop == Some(Limited) ==> Met(Timeout)
      ensures old(Calm()) ==> stop == None && Calm()
      ensures stops == old(stops) + if stop.Some? then 1 else 0
    {
      var signal := Ask();
      stop := None;
      match signal {
        case Go =>
        case Cancel => stop := Some(Cancelled);
        case Timeout =>
          stop := Some(Limited);
          stops := stops + 1;
      }
    }

    /** Reserve before reading: a read that fails is charged in full. */
    method Reserve(bytes: nat) returns (stop: Option<Failure>)
      requires Valid()
      modifies this`signals, this`looks, this`stops, this`bytesRead
      ensures Valid() && stop in {None, Some(Cancelled), Some(Limited)} && looks == old(looks) + 1
      ensures bytesRead == old(bytesRead) + if stop.None? then bytes else 0
      ensures old(Calm()) ==>
        Calm() && stop == if old(bytesRead) + bytes <= limit then None else Some(Limited)
      ensures (stop == Some(Cancelled) ==> Met(Cancel)) &&
        (stop == Some(Limited) ==> Met(Timeout) || bytesRead + bytes > limit)
      ensures stop in {Some(Cancelled), Some(Limited)} || stops == old(stops)
    {
      stop := Checkpoint();
      if stop.Some? { return; }
      if bytesRead + bytes > limit { return Some(Limited); }
      bytesRead := bytesRead + bytes;
    }

    /** One read returns something of what is left, and no more than it happens to return at once. */
    method Read(most: nat) returns (count: nat)
      requires Valid() && 0 < most && delivered + most <= bytesRead
      modifies this`pieces, this`delivered, this`calls
      ensures Valid() && calls == old(calls) + 1 && delivered == old(delivered) + count
      ensures 0 < count == if old(pieces) == [] then most else Min(most, Max(1, old(pieces)[0]))
      ensures pieces == if old(pieces) == [] then [] else old(pieces)[1..]
    {
      count := most;
      if pieces != [] {
        count := Min(count, Max(1, pieces[0]));
        pieces := pieces[1..];
      }
      delivered, calls := delivered + count, calls + 1;
    }

    /**
     * `read_filled`: one chunk, in as many reads as it takes; a read that ends early
     * has still been charged in full.
     */
    method ReadFilled(x: Item, health: Health, offset: nat) returns (stop: Option<Failure>, bytes: seq<Byte>)
      requires Valid()
      modifies this`signals, this`looks, this`stops, this`bytesRead, this`pieces, this`delivered, this`calls
      ensures Valid() && (stop == Some(Unsafe) ==> Broken(x, health, offset))
      ensures stop.None? ==>
        && !Broken(x, health, offset) && bytes == Chunk(x.contents, offset)
        && bytesRead == old(bytesRead) + |bytes| && delivered == old(delivered) + |bytes|
        && looks - old(looks) == 1 + calls - old(calls)
      ensures stop == Some(Unsafe) ==>
        && bytesRead == old(bytesRead) + |Chunk(x.contents, offset)|
        && delivered < old(delivered) + |Chunk(x.contents, offset)|
      ensures bytesRead <= old(bytesRead) + |Chunk(x.contents, offset)|
      ensures old(Calm()) ==> Calm()
      ensures old(Calm()) && old(bytesRead) + |Chunk(x.contents, offset)| <= limit ==>
        stop == if Broken(x, health, offset) then Some(Unsafe) else None
      ensures old(Calm()) && old(bytesRead) + |Chunk(x.contents, offset)| > limit ==> stop == Some(Limited)
      ensures Explains(stop)
      ensures stop in {Some(Cancelled), Some(Limited)} || stops == old(stops)
    {
      hide Heard, Coming, Asked, Calm, Met;
      var source := Chunk(x.contents, offset);
      bytes := [];
      stop := Reserve(|source|);
      if stop.Some? { return; }
      var readable := if health.Breaks? && health.at < offset + |source| then Max(0, health.at - offset) else |source|;
      while |bytes| < |source|
        invariant Valid() && |bytes| <= readable <= |source| && bytes == source[..|bytes|] && stop.None?
        invariant bytesRead == old(bytesRead) + |source| <= limit && delivered == old(delivered) + |bytes|
        invariant stops == old(stops) && (old(Calm()) ==> Calm())
        invariant looks - old(looks) == 1 + calls - old(calls)
      {
        stop := Checkpoint();
        if stop.Some? { return; }
        var count := readable - |bytes|;
        if count == 0 { return Some(Unsafe), bytes; }
        count := Read(count);
        bytes := source[..|bytes| + count];
      }
    }

    /** `open_input`: one more input is open if it succeeds. */
    method Open(health: Health) returns (stop: Option<Failure>)
      requires Valid() && open < MAX_OPEN
      modifies this`signals, this`looks, this`stops, this`open, this`peak
      ensures Valid() && open == old(open) + if stop.None? then 1 else 0
      ensures stop.None? ==> health != Unopenable && peak == Max(old(peak), open) && looks == old(looks) + 2
      ensures stop == Some(Unsafe) ==> health == Unopenable
      ensures old(Calm()) ==> Calm() && stop == if health == Unopenable then Some(Unsafe) else None
      ensures Explains(stop)
      ensures stop in {Some(Cancelled), Some(Limited)} || stops == old(stops)
    {
      stop := Checkpoint();
      if stop.Some? { return; }
      if health == Unopenable { return Some(Unsafe); }
      open := open + 1;
      peak := Max(peak, open);
      stop := Checkpoint();
      if stop.Some? { Close(1); }
    }

    /** Dropping opened inputs closes their descriptors. */
    ghost method Close(n: nat)
      requires Valid() && n <= open
      modifies this`open
      ensures Valid() && open == old(open) - n
    {
      open := open - n;
    }

    /** `validate_as_input`, which looks at the cancellation only. */
    method Validate(health: Health) returns (stop: Option<Failure>)
      requires Valid()
      modifies this`signals, this`looks, this`stops
      ensures Valid() && looks == old(looks) + 1
      ensures stop ==
        if Heard(old(signals)) == Some(Cancelled) then Some(Cancelled)
        else if health in {Steady, Unopenable} then None else Some(Unsafe)
      ensures old(Calm()) ==> Calm() && stop != Some(Cancelled)
      ensures Explains(stop)
      ensures stop == Some(Cancelled) || stops == old(stops)
    {
      var signal := Ask();
      stop := None;
      if signal == Cancel { return Some(Cancelled); }
      if health == Changed || health.Breaks? { stop := Some(Unsafe); }
    }
  }

  /** The chunk at `offset` cannot be read to its end. */
  predicate Broken(x: Item, health: Health, offset: nat) {
    health.Breaks? && Chunk(x.contents, offset) != [] && health.at < offset + |Chunk(x.contents, offset)|
  }

  /** The peers still marked equal. */
  function Live(items: seq<Item>, equal: seq<bool>): seq<Item>
    requires |items| == |equal|
  {
    if items == [] then [] else (if equal[0] then [items[0]] else []) + Live(items[1..], equal[1..])
  }

  lemma {:induction false} LiveStep(items: seq<Item>, equal: seq<bool>, j: nat)
    requires |items| == |equal| && j < |items|
    ensures Live(items[..j + 1], equal[..j + 1]) == Live(items[..j], equal[..j]) + if equal[j] then [items[j]] else []
    ensures |Live(items[..j], equal[..j])| + (if equal[j] then 1 else 0) <= |Live(items, equal)|
  {
    if j > 0 {
      LiveStep(items[1..], equal[1..], j - 1);
      assert items[1..][..j] == items[..j + 1][1..] && equal[1..][..j] == equal[..j + 1][1..];
      assert items[1..][..j - 1] == items[..j][1..] && equal[1..][..j - 1] == equal[..j][1..];
    }
  }

  lemma {:induction false} LiveAgrees(reference: Item, items: seq<Item>, before: seq<bool>, after: seq<bool>,
                                      offset: nat)
    requires |items| == |before| == |after|
    requires forall k :: 0 <= k < |items| ==>
      after[k] == (before[k] && Chunk(items[k].contents, offset) == Chunk(reference.contents, offset))
    ensures Live(items, after) == Agreeing(reference, Live(items, before), offset)
  {
    if items != [] {
      LiveAgrees(reference, items[1..], before[1..], after[1..], offset);
      var rest := Live(items[1..], before[1..]);
      if before[0] { assert Live(items, before) == [items[0]] + rest && ([items[0]] + rest)[1..] == rest; }
      else { assert Live(items, before) == rest; }
    }
  }

  lemma {:induction false} AllLive(items: seq<Item>, equal: seq<bool>)
    requires |items| == |equal|
    ensures (forall k :: 0 <= k < |equal| ==> equal[k]) ==> Live(items, equal) == items
    ensures Live(items, equal) == [] <==> forall k :: 0 <= k < |equal| ==> !equal[k]
  {
    if items != [] { AllLive(items[1..], equal[1..]); }
  }

  lemma PrefixStep(a: seq<Byte>, b: seq<Byte>, offset: nat)
    requires |a| == |b| && offset < |a|
    ensures var next := offset + |Chunk(b, offset)|;
      && next == Min(offset + CHUNK, |b|)
      && (a[..next] == b[..next] <==> a[..offset] == b[..offset] && Chunk(a, offset) == Chunk(b, offset))
  {
    var next := offset + |Chunk(b, offset)|;
    assert a[..next] == a[..offset] + Chunk(a, offset);
    assert b[..next] == b[..offset] + Chunk(b, offset);
    assert a[..next][..offset] == a[..offset] && b[..next][..offset] == b[..offset];
    assert a[..next][offset..] == Chunk(a, offset) && b[..next][offset..] == Chunk(b, offset);
  }

  lemma SameLength(items: seq<Item>, reference: Item, offset: nat)
    requires forall k :: 0 <= k < |items| ==> |items[k].contents| == |reference.contents|
    ensures forall k :: 0 <= k < |items| ==> |Chunk(items[k].contents, offset)| == |Chunk(reference.contents, offset)|
  {
  }

  /** No file of the batch ends early. */
  predicate Whole(reference: Item, items: seq<Item>) {
    !reference.comparing.Breaks? && forall x :: x in items ==> !x.comparing.Breaks?
  }

  lemma WholeUnbroken(reference: Item, items: seq<Item>, offset: nat)
    requires Whole(reference, items)
    ensures !Broken(reference, reference.comparing, offset)
    ensures forall x :: x in items ==> !Broken(x, x.comparing, offset)
  {
  }

  /** One chunk of the reference against every peer still equal. */
  method CompareChunk(state: WorkState, reference: Item, items: seq<Item>, before: seq<bool>, offset: nat)
    returns (stop: Option<Failure>, equal: seq<bool>)
    requires state.Valid() && |items| == |before|
    requires forall k :: 0 <= k < |items| ==> |items[k].contents| == |reference.contents|
    modifies state
    ensures state.Valid() && state.open == old(state.open) && (Whole(reference, items) ==> stop != Some(Unsafe))
    ensures state.bytesRead <= old(state.bytesRead) + Round(|Chunk(reference.contents, offset)|, |Live(items, before)|)
    ensures stop.None? ==>
      && |equal| == |items|
      && state.bytesRead == old(state.bytesRead) + Round(|Chunk(reference.contents, offset)|, |Live(items, before)|)
    ensures stop.None? ==> forall k :: 0 <= k < |items| ==>
      equal[k] == (before[k] && Chunk(items[k].contents, offset) == Chunk(reference.contents, offset))
    ensures old(state.Calm()) ==> state.Calm()
    ensures
      var cost := Round(|Chunk(reference.contents, offset)|, |Live(items, before)|);
      old(state.Calm()) && old(state.bytesRead) + cost <= state.limit ==> stop.None? || stop == Some(Unsafe)
    ensures stop.Some? ==> state.Explains(stop)
    ensures stop in {Some(Cancelled), Some(Limited)} || state.stops == old(state.stops)
  {
    hide Heard, Coming, WorkState.Asked;
    hide Round, Live, Chunk, WorkState.Explains, WorkState.Met, WorkState.Calm, Whole, Broken;
    if Whole(reference, items) { WholeUnbroken(reference, items, offset); }
    equal := before;
    ghost var length := |Chunk(reference.contents, offset)|;
    ghost var live := |Live(items, before)|;
    RoundGrows(length, 0, live);
    assert forall k :: 0 <= k < |items| ==> |Chunk(items[k].contents, offset)| == length by {
      SameLength(items, reference, offset);
    }
    var bytes;
    stop, bytes := state.ReadFilled(reference, reference.comparing, offset);
    if stop.Some? { return; }
    ghost var seen := 0;
    AllLive(items[..0], before[..0]);
    var j := 0;
    while j < |items|
      invariant 0 <= j <= |items| == |equal| && state.Valid() && stop.None?
      invariant forall k :: 0 <= k < j ==> equal[k] == (before[k] && Chunk(items[k].contents, offset) == bytes)
      invariant forall k :: j <= k < |items| ==> equal[k] == before[k]
      invariant seen == |Live(items[..j], before[..j])| <= live
      invariant state.bytesRead == old(state.bytesRead) + Round(length, seen) <=
        old(state.bytesRead) + Round(length, live)
      invariant state.open == old(state.open) && (old(state.Calm()) ==> state.Calm())
      invariant state.stops == old(state.stops)
    {
      LiveStep(items, before, j);
      if equal[j] {
        RoundGrows(length, seen, live);
        RoundGrows(length, seen + 1, live);
        seen := seen + 1;
        var peerBytes;
        assert items[j] in items;
        stop, peerBytes := state.ReadFilled(items[j], items[j].comparing, offset);
        if stop.Some? { return; }
        stop := state.Checkpoint();
        if stop.Some? { return; }
        if bytes != peerBytes { equal := equal[j := false]; }
      }
      j := j + 1;
    }
    assert items[..j] == items && before[..j] == before;
  }

  ghost predicate AllFit(reference: Item, items: seq<Item>) {
    reference.comparing == Steady && forall x :: x in items ==> Fit(reference, x)
  }

  /** Open the peers of a batch, beside the reference; a failure leaves none of them open. */
  method OpenPeers(state: WorkState, reference: Item, items: seq<Item>) returns (stop: Option<Failure>)
    requires state.Valid() && state.open + |items| <= MAX_OPEN
    modifies state`signals, state`looks, state`stops, state`open, state`peak
    ensures state.Valid() && state.open == old(state.open) + if stop.None? then |items| else 0
    ensures stop.None? ==> forall x :: x in items ==> |x.contents| == |reference.contents|
    ensures AllFit(reference, items) ==> stop != Some(Unsafe)
    ensures
      var calm := forall x :: x in items ==> x.comparing in {Steady, Unopenable};
      stop.None? && reference.comparing == Steady && calm ==> AllFit(reference, items)
    ensures old(state.Calm()) ==> state.Calm() && (stop.None? || stop == Some(Unsafe))
    ensures stop.Some? ==> state.Explains(stop)
    ensures stop in {Some(Cancelled), Some(Limited)} || state.stops == old(state.stops)
  {
    hide Heard, Coming, WorkState.Asked, WorkState.Met, WorkState.Calm;
    stop := None;
    var j := 0;
    while j < |items|
      invariant 0 <= j <= |items| && state.Valid() && stop.None? && state.open == old(state.open) + j
      invariant forall k :: 0 <= k < j ==>
        && items[k].comparing != Unopenable && |items[k].contents| == |reference.contents|
        && !(items[k].device == reference.device && items[k].inode == reference.inode)
      invariant state.stops == old(state.stops) && (old(state.Calm()) ==> state.Calm())
    {
      var x := items[j];
      assert x in items;
      if reference.device == x.device && reference.inode == x.inode {
        state.Close(j);
        return Some(Unsafe);
      }
      stop := state.Open(x.comparing);
      if stop.Some? {
        state.Close(j);
        return;
      }
      j := j + 1;
      if |x.contents| != |reference.contents| {
        state.Close(j);
        return Some(Unsafe);
      }
      stop := state.Checkpoint();
      if stop.Some? {
        state.Close(j);
        return;
      }
    }
  }

  /** The chunk loop of a batch, with its early stop. */
  method CompareBatch(state: WorkState, reference: Item,
                      items: seq<Item>) returns (stop: Option<Failure>, equal: seq<bool>)
    requires state.Valid() && forall k :: 0 <= k < |items| ==> |items[k].contents| == |reference.contents|
    modifies state
    ensures state.Valid() && state.open == old(state.open) && (Whole(reference, items) ==> stop != Some(Unsafe))
    ensures state.bytesRead <= old(state.bytesRead) + BatchReads(reference, items, 0)
    ensures stop.None? ==>
      |equal| == |items| && state.bytesRead == old(state.bytesRead) + BatchReads(reference, items, 0)
    ensures stop.None? ==> forall k :: 0 <= k < |items| ==> equal[k] == (items[k].contents == reference.contents)
    ensures old(state.Calm()) ==> state.Calm()
    ensures old(state.Calm()) && old(state.bytesRead) + BatchReads(reference, items, 0) <= state.limit ==>
      stop.None? || stop == Some(Unsafe)
    ensures stop.Some? ==> state.Explains(stop)
    ensures stop in {Some(Cancelled), Some(Limited)} || state.stops == old(state.stops)
  {
    hide Heard, Coming, WorkState.Asked;
    hide Live, Chunk, Round, BatchReads, Agreeing, WorkState.Explains, WorkState.Met, WorkState.Calm, Whole;
    stop := None;
    equal := seq(|items|, _ => true);
    var offset := 0;
    AllLive(items, equal);
    while offset < |reference.contents| && exists k :: 0 <= k < |equal| && equal[k]
      invariant 0 <= offset <= |reference.contents| && |equal| == |items| && stop.None? && state.Valid()
      invariant state.open == old(state.open)
      invariant forall k :: 0 <= k < |items| ==>
        equal[k] == (items[k].contents[..offset] == reference.contents[..offset])
      invariant state.bytesRead + BatchReads(reference, Live(items, equal), offset) ==
        old(state.bytesRead) + BatchReads(reference, items, 0)
      invariant state.stops == old(state.stops) && (old(state.Calm()) ==> state.Calm())
      decreases |reference.contents| - offset
    {
      AllLive(items, equal);
      BatchUnfolds(reference, Live(items, equal), offset);
      stop := state.Checkpoint();
      if stop.Some? { return; }
      ghost var before := equal;
      stop, equal := CompareChunk(state, reference, items, equal, offset);
      if stop.Some? { return; }
      LiveAgrees(reference, items, before, equal, offset);
      ChunkPrefixes(reference, items, offset);
      offset := Min(offset + CHUNK, |reference.contents|);
    }
    AllLive(items, equal);
    BatchUnfolds(reference, Live(items, equal), offset);
    assert offset == |reference.contents| ==> forall k :: 0 <= k < |items| ==>
      items[k].contents[..offset] == items[k].contents && reference.contents[..offset] == reference.contents;
  }

  lemma BatchUnfolds(reference: Item, live: seq<Item>, offset: nat)
    ensures BatchReads(reference, live, offset) ==
      if offset >= |reference.contents| || live == [] then 0
      else Round(|Chunk(reference.contents, offset)|, |live|)
           + BatchReads(reference, Agreeing(reference, live, offset), offset + |Chunk(reference.contents, offset)|)
  {
  }

  lemma ChunkPrefixes(reference: Item, items: seq<Item>, offset: nat)
    requires offset < |reference.contents|
    requires forall k :: 0 <= k < |items| ==> |items[k].contents| == |reference.contents|
    ensures var next := Min(offset + CHUNK, |reference.contents|);
      && next == offset + |Chunk(reference.contents, offset)|
      && forall k :: 0 <= k < |items| ==>
           (items[k].contents[..next] == reference.contents[..next] <==>
              && items[k].contents[..offset] == reference.contents[..offset]
              && Chunk(items[k].contents, offset) == Chunk(reference.contents, offset))
  {
    forall k | 0 <= k < |items|
      ensures var next := Min(offset + CHUNK, |reference.contents|);
        items[k].contents[..next] == reference.contents[..next] <==>
          && items[k].contents[..offset] == reference.contents[..offset]
          && Chunk(items[k].contents, offset) == Chunk(reference.contents, offset)
    {
      PrefixStep(items[k].contents, reference.contents, offset);
    }
  }

  /** The batch once its peers are open: compare, then validate everything again. */
  method DecideBatch(state: WorkState, reference: Item, items: seq<Item>) returns (r: Work<seq<bool>>)
    requires state.Valid() && reference.comparing != Unopenable
    requires forall k :: 0 <= k < |items| ==> |items[k].contents| == |reference.contents|
    modifies state
    ensures state.Valid() && state.open == old(state.open)
    ensures state.bytesRead <= old(state.bytesRead) + BatchReads(reference, items, 0)
    ensures r.Done? ==>
      && reference.comparing == Steady && (forall x :: x in items ==> x.comparing in {Steady, Unopenable})
      && |r.value| == |items| && state.bytesRead == old(state.bytesRead) + BatchReads(reference, items, 0)
      && forall k :: 0 <= k < |items| ==> r.value[k] == (items[k].contents == reference.contents)
    ensures AllFit(reference, items) ==> r != Stop(Unsafe)
    ensures old(state.Calm()) ==> state.Calm()
    ensures old(state.Calm()) && old(state.bytesRead) + BatchReads(reference, items, 0) <= state.limit ==>
      r.Done? || r.failure == Unsafe
    ensures r.Stop? ==> state.Explains(Some(r.failure))
    ensures r.Done? || r.failure == Unsafe ==> state.stops == old(state.stops)
  {
    hide Heard, Coming, WorkState.Asked, WorkState.Met, WorkState.Calm;
    hide BatchReads;
    var stop, equal := CompareBatch(state, reference, items);
    if stop.Some? { return Stop(stop.value); }
    stop := state.Validate(reference.comparing);
    if stop.Some? { return Stop(stop.value); }
    var j := 0;
    while j < |items|
      invariant 0 <= j <= |items| && state.Valid() && state.open == old(state.open)
      invariant state.bytesRead == old(state.bytesRead) + BatchReads(reference, items, 0)
      invariant forall k :: 0 <= k < j ==> items[k].comparing in {Steady, Unopenable}
      invariant state.stops == old(state.stops) && (old(state.Calm()) ==> state.Calm())
    {
      assert items[j] in items;
      stop := state.Validate(items[j].comparing);
      if stop.Some? { return Stop(stop.value); }
      j := j + 1;
    }
    return Done(equal);
  }

  /** `exact_batch`: which peers have exactly the reference's bytes. */
  method ExactBatch(state: WorkState, reference: Item, items: seq<Item>) returns (r: Work<seq<bool>>)
    requires state.Valid() && state.open + |items| <= MAX_OPEN && reference.comparing != Unopenable
    modifies state
    ensures state.Valid() && state.open == old(state.open)
    ensures state.bytesRead <= old(state.bytesRead) + BatchReads(reference, items, 0)
    ensures r.Done? ==>
      && AllFit(reference, items) && |r.value| == |items|
      && state.bytesRead == old(state.bytesRead) + BatchReads(reference, items, 0)
      && forall k :: 0 <= k < |items| ==> r.value[k] == (items[k].contents == reference.contents)
    ensures r == Stop(Unsafe) ==> !AllFit(reference, items)
    ensures old(state.Calm()) ==> state.Calm()
    ensures old(state.Calm()) && old(state.bytesRead) + BatchReads(reference, items, 0) <= state.limit ==>
      r.Done? || r.failure == Unsafe
    ensures r.Stop? ==> state.Explains(Some(r.failure))
    ensures r.Done? || r.failure == Unsafe ==> state.stops == old(state.stops)
  {
    hide Heard, Coming, WorkState.Asked, WorkState.Met, WorkState.Calm;
    hide BatchReads;
    var stop := state.Checkpoint();
    if stop.Some? { return Stop(stop.value); }
    stop := state.Validate(reference.comparing);
    if stop.Some? { return Stop(stop.value); }
    stop := state.Checkpoint();
    if stop.Some? { return Stop(stop.value); }
    stop := OpenPeers(state, reference, items);
    if stop.Some? { return Stop(stop.value); }
    assert forall k :: 0 <= k < |items| ==> items[k] in items;
    r := DecideBatch(state, reference, items);
    state.Close(|items|);
  }

  /** The members of a class and the rest, told apart by the flags of a batch. */
  function Picked(items: seq<Item>, equal: seq<bool>, flag: bool): seq<Item>
    requires |items| == |equal|
  {
    if items == [] then [] else (if equal[0] == flag then [items[0]] else []) + Picked(items[1..], equal[1..], flag)
  }

  lemma {:induction false} PickedKeeps(reference: Item, items: seq<Item>, equal: seq<bool>)
    requires |items| == |equal|
    requires forall k :: 0 <= k < |items| ==> equal[k] == (items[k].contents == reference.contents)
    ensures Picked(items, equal, true) == Keep(items, KeyIs(ByBytes, KeyAt(ByBytes, reference)))
    ensures Picked(items, equal, false) == Keep(items, KeyIsNot(ByBytes, KeyAt(ByBytes, reference)))
  {
    if items != [] { PickedKeeps(reference, items[1..], equal[1..]); }
  }

  /** All batches against one reference: its class and the mismatches. */
  method Batches(state: WorkState, reference: Item, peers: seq<Item>) returns (r: Work<(seq<Item>, seq<Item>)>)
    requires state.Valid() && state.open == 1 && reference.comparing != Unopenable && peers != []
    modifies state
    ensures state.Valid() && state.open == 1 && state.bytesRead <= old(state.bytesRead) + BatchesCost(reference, peers)
    ensures r.Done? ==>
      && AllFit(reference, peers)
      && state.bytesRead == old(state.bytesRead) + BatchesCost(reference, peers)
      && r.value.0 == [reference] + Keep(peers, KeyIs(ByBytes, KeyAt(ByBytes, reference)))
      && r.value.1 == Keep(peers, KeyIsNot(ByBytes, KeyAt(ByBytes, reference)))
    ensures r == Stop(Unsafe) ==> !AllFit(reference, peers)
    ensures old(state.Calm()) ==> state.Calm()
    ensures old(state.Calm()) && old(state.bytesRead) + BatchesCost(reference, peers) <= state.limit ==>
      r.Done? || r.failure == Unsafe
    ensures r.Stop? ==> state.Explains(Some(r.failure))
    ensures r.Done? || r.failure == Unsafe ==> state.stops == old(state.stops)
  {
    hide Heard, Coming, WorkState.Asked, WorkState.Met, WorkState.Calm;
    hide BatchReads, BatchesCost, Keep, AllFit, Picked;
    var same, other := KeyIs(ByBytes, KeyAt(ByBytes, reference)), KeyIsNot(ByBytes, KeyAt(ByBytes, reference));
    var sameBytes, mismatches := [reference], [];
    var i := 0;
    NothingKept(same);
    NothingKept(other);
    BatchesStart(reference, peers);
    while i < |peers|
      invariant 0 <= i <= |peers| && state.Valid() && state.open == 1
      invariant i > 0 ==> AllFit(reference, peers[..i])
      invariant sameBytes == [reference] + Keep(peers[..i], same) && mismatches == Keep(peers[..i], other)
      invariant state.bytesRead + BatchesCost(reference, peers[i..]) ==
        old(state.bytesRead) + BatchesCost(reference, peers)
      invariant state.stops == old(state.stops) && (old(state.Calm()) ==> state.Calm())
    {
      var n := Min(PEERS_PER_BATCH, |peers| - i);
      var batch := peers[i..i + n];
      BatchesStep(reference, peers, i, n);
      var results := ExactBatch(state, reference, batch);
      if results.Stop? { return Stop(results.failure); }
      PickedKeeps(reference, batch, results.value);
      KeepAppend(peers[..i], batch, same);
      KeepAppend(peers[..i], batch, other);
      sameBytes := sameBytes + Picked(batch, results.value, true);
      mismatches := mismatches + Picked(batch, results.value, false);
      i := i + n;
      var stop := state.Checkpoint();
      if stop.Some? { return Stop(stop.value); }
    }
    assert peers[..i] == peers;
    return Done((sameBytes, mismatches));
  }

  lemma BatchesStart(reference: Item, peers: seq<Item>)
    ensures peers[0..] == peers && peers[..0] == []
    ensures BatchesCost(reference, peers[|peers|..]) == 0
  {
  }

  lemma BatchesStep(reference: Item, peers: seq<Item>, i: nat, n: nat)
    requires i < |peers| && n == Min(PEERS_PER_BATCH, |peers| - i)
    ensures peers[..i + n] == peers[..i] + peers[i..i + n]
    ensures BatchesCost(reference, peers[i..]) ==
      BatchReads(reference, peers[i..i + n], 0) + BatchesCost(reference, peers[i + n..])
    ensures AllFit(reference, peers) ==> AllFit(reference, peers[i..i + n])
    ensures AllFit(reference, peers[i..i + n]) && (i > 0 ==> AllFit(reference, peers[..i])) ==>
      AllFit(reference, peers[..i + n])
  {
    hide BatchReads, Fit;
    assert peers[i..][..n] == peers[i..i + n] && peers[i..][n..] == peers[i + n..];
    assert peers[..i + n] == peers[..i] + peers[i..i + n];
    assert forall x :: x in peers[i..i + n] ==> x in peers;
  }

  lemma SingleGroup(x: Item)
    ensures GroupBy([x], ByBytes) == [[x]]
  {
    var k := KeyAt(ByBytes, x);
    assert [x][1..] == [];
    assert Keep([x][1..], KeyIs(ByBytes, k)) == [] && Keep([x][1..], KeyIsNot(ByBytes, k)) == [];
    assert [x] + [] == [x] && GroupBy(Keep([x][1..], KeyIsNot(ByBytes, k)), ByBytes) == [];
    assert GroupBy([x], ByBytes) == [[x] + Keep([x][1..], KeyIs(ByBytes, k))] + [];
  }

  lemma NothingKept(t: Test)
    ensures Keep([], t) == []
  {
  }

  /** One reference against all that is pending: opened, compared, validated, and closed on every exit. */
  method Against(state: WorkState, reference: Item, peers: seq<Item>) returns (r: Work<(seq<Item>, seq<Item>)>)
    requires state.Valid() && state.open == 0 && peers != []
    modifies state
    ensures state.Valid() && state.open == 0 && state.bytesRead <= old(state.bytesRead) + BatchesCost(reference, peers)
    ensures r.Done? ==>
      && AllFit(reference, peers)
      && state.bytesRead == old(state.bytesRead) + BatchesCost(reference, peers)
      && r.value.0 == [reference] + Keep(peers, KeyIs(ByBytes, KeyAt(ByBytes, reference)))
      && r.value.1 == Keep(peers, KeyIsNot(ByBytes, KeyAt(ByBytes, reference)))
    ensures r == Stop(Unsafe) ==> !AllFit(reference, peers)
    ensures old(state.Calm()) ==> state.Calm()
    ensures old(state.Calm()) && old(state.bytesRead) + BatchesCost(reference, peers) <= state.limit ==>
      r.Done? || r.failure == Unsafe
    ensures r.Stop? ==> state.Explains(Some(r.failure))
    ensures r.Done? || r.failure == Unsafe ==> state.stops == old(state.stops)
  {
    hide Heard, Coming, WorkState.Asked, WorkState.Met, WorkState.Calm;
    hide BatchesCost, Keep, Fit;
    var stop := state.Open(reference.comparing);
    if stop.Some? { return Stop(stop.value); }
    r := Batches(state, reference, peers);
    if r.Done? {
      stop := state.Validate(reference.comparing);
      if stop.None? { stop := state.Checkpoint(); }
      if stop.Some? { r := Stop(stop.value); }
    }
    state.Close(1);
  }

  /**
   * `exact_classes`: the byte-equality partition of a hash group, its exact
   * cost, and nothing at all if any comparison is unsafe, stopped, or over budget.
   */
  method ExactClasses(state: WorkState, items: seq<Item>) returns (r: Work<seq<seq<Item>>>)
    requires state.Valid() && state.open == 0
    modifies state
    ensures state.Valid() && state.open == 0 && state.bytesRead <= old(state.bytesRead) + Cost(items)
    ensures r.Done? ==>
      && r.value == GroupBy(items, ByBytes) && Comparable(items)
      && state.bytesRead == old(state.bytesRead) + Cost(items)
    ensures r == Stop(Unsafe) ==> !Comparable(items)
    ensures old(state.Calm()) ==> state.Calm()
    ensures old(state.Calm()) ==>
      (r.Done? <==> Comparable(items) && old(state.bytesRead) + Cost(items) <= state.limit)
    ensures old(state.Calm()) && old(state.bytesRead) + Cost(items) <= state.limit ==>
      r.Done? || r.failure == Unsafe
    ensures r.Stop? ==> state.Explains(Some(r.failure))
    ensures r.Done? || r.failure == Unsafe ==> state.stops == old(state.stops)
  {
    hide Heard, Coming, WorkState.Asked, WorkState.Met, WorkState.Calm;
    hide BatchesCost, Keep, Fit;
    var pending := items;
    var classes := [];
    while pending != []
      invariant state.Valid() && state.open == 0
      invariant classes + GroupBy(pending, ByBytes) == GroupBy(items, ByBytes)
      invariant state.bytesRead + Cost(pending) == old(state.bytesRead) + Cost(items)
      invariant Comparable(items) <==> Comparable(pending)
      invariant state.stops == old(state.stops) && (old(state.Calm()) ==> state.Calm())
      decreases |pending|
    {
      var stop := state.Checkpoint();
      if stop.Some? { return Stop(stop.value); }
      var reference, peers := pending[0], pending[1..];
      if peers == [] {
        SingleGroup(reference);
        assert pending == [reference];
        classes := classes + [[reference]];
        pending := [];
        break;
      }
      var split := Against(state, reference, peers);
      if split.Stop? { return Stop(split.failure); }
      KeepMembers(peers, KeyIsNot(ByBytes, KeyAt(ByBytes, reference)));
      classes := classes + [split.value.0];
      pending := split.value.1;
    }
    var stop := state.Checkpoint();
    if stop.Some? { return Stop(stop.value); }
    return Done(classes);
  }

  /** Everything `verify_staged` demands of a staged copy and the file that is kept. */
  predicate SameFile(copy: Item, keeper: Item) {
    && copy.valid && keeper.valid && keeper.revalidates
    && copy.comparing == Steady && Fit(copy, keeper) && copy.contents == keeper.contents
  }

  /** The chunk loop of `verify_staged`. */
  method SameBytes(state: WorkState, copy: Item, keeper: Item) returns (ok: bool)
    requires state.Valid() && state.bytesRead == 0 && |copy.contents| == |keeper.contents|
    modifies state
    ensures state.Valid() && state.open == old(state.open) && state.bytesRead <= 2 * |keeper.contents|
    ensures ok ==> copy.contents == keeper.contents && 2 * |keeper.contents| <= state.limit
    ensures old(state.Calm()) ==> state.Calm()
    ensures
      var possible := copy.contents == keeper.contents && 2 * |keeper.contents| <= state.limit;
      old(state.Calm()) && Whole(copy, [keeper]) && possible ==> ok
    ensures ok ==> state.stops == old(state.stops)
  {
    hide Heard, Coming, Chunk, WorkState.Asked, WorkState.Explains, WorkState.Met, WorkState.Calm, Broken;
    ok := false;
    assert [keeper][0] == keeper && keeper in [keeper];
    var stop;
    var offset := 0;
    while offset < |copy.contents|
      invariant 0 <= offset <= |copy.contents| && state.Valid() && state.bytesRead == 2 * offset
      invariant state.open == old(state.open)
      invariant copy.contents[..offset] == keeper.contents[..offset]
      invariant state.stops == old(state.stops) && (old(state.Calm()) ==> state.Calm())
    {
      stop := state.Checkpoint();
      if stop.Some? { return; }
      SameLength([keeper], copy, offset);
      if Whole(copy, [keeper]) { WholeUnbroken(copy, [keeper], offset); }
      PrefixStep(copy.contents, keeper.contents, offset);
      ghost var next := offset + |Chunk(keeper.contents, offset)|;
      assert copy.contents == keeper.contents ==> copy.contents[..next] == keeper.contents[..next];
      var stageBytes, keeperBytes;
      stop, stageBytes := state.ReadFilled(copy, copy.comparing, offset);
      if stop.Some? { return; }
      stop, keeperBytes := state.ReadFilled(keeper, keeper.comparing, offset);
      if stop.Some? { return; }
      if stageBytes != keeperBytes { return; }
      offset := Min(offset + CHUNK, |copy.contents|);
    }
    assert copy.contents[..offset] == copy.contents && keeper.contents[..offset] == keeper.contents;
    ok := true;
  }

  /** `verify_staged`: a staged copy may go to the Trash only if the retained file has exactly its bytes. */
  method VerifyStaged(state: WorkState, copy: Item, keeper: Item) returns (ok: bool)
    requires state.Valid() && state.bytesRead == 0 && state.open == 0
    modifies state
    ensures state.Valid() && state.bytesRead <= 2 * |keeper.contents|
    ensures state.open == if ok then 1 else 0    // the retained file stays open for its last validation
    ensures ok ==> SameFile(copy, keeper) && 2 * |keeper.contents| <= state.limit
    ensures old(state.Calm()) ==> (ok <==> SameFile(copy, keeper) && 2 * |keeper.contents| <= state.limit)
    ensures ok ==> state.stops == old(state.stops)
  {
    hide Heard, Coming, WorkState.Asked, WorkState.Met, WorkState.Calm;
    ok := false;
    if !copy.valid || !keeper.valid || (copy.device == keeper.device && copy.inode == keeper.inode) { return; }
    var stop := state.Checkpoint();
    if stop.Some? || !keeper.revalidates { return; }
    stop := state.Checkpoint();
    if stop.Some? { return; }
    stop := state.Open(copy.comparing);
    if stop.Some? { return; }
    stop := state.Open(keeper.comparing);
    if stop.Some? {
      state.Close(1);
      return;
    }
    if |copy.contents| == |keeper.contents| {
      ok := SameBytes(state, copy, keeper);
    }
    if ok {
      stop := state.Validate(copy.comparing);
      if stop.None? { stop := state.Validate(keeper.comparing); }
      if stop.None? { stop := state.Checkpoint(); }
      ok := stop.None?;
    }
    state.Close(if ok then 1 else 2);
  }
}
