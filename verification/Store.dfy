/** The durable tables: operations, the committed manifest, observation windows and the reward ledger. */
module Store {
  import opened Prelude
  import opened Metadata
  import opened FileSystem
  import opened Accounting

  const COIN_BYTES: nat := 100_000_000
  const MAX_I64: nat := 0x7FFF_FFFF_FFFF_FFFF

  type Id = nat

  /** A directory and a name in it. */
  datatype Place = Place(dir: Key, name: Name)

  datatype Receipt = Receipt(
    id: Id, operation: Operation, outcome: Outcome,
    reported: nat, observed: nat, credited: nat, coins: nat,
    trash: Option<Place>, canRestore: bool)

  /** A reviewed item.  Its fingerprint is kept as what it digests: the metadata of every entry, in no order. */
  datatype Candidate = Candidate(place: Place, identity: Identity, contents: multiset<(Path, EntryMeta)>,
                                 allocation: nat)

  datatype OpState = Begun | Mutating | Restoring | Ended(outcome: Outcome)

  datatype OpRow = OpRow(candidate: Candidate, receipt: Receipt, trashIdentity: Option<Identity>, state: OpState)

  datatype WindowState = Open | Closed | Stale

  datatype WindowRow = WindowRow(domain: string, before: nat, after: Option<nat>, private: nat, credited: nat,
                                 state: WindowState)

  datatype Allocation = Allocation(op: Id, window: Id, bytes: nat)

  datatype Earning = Earning(op: Id, coins: nat, collected: bool)

  /** The handle of an open window, with the samples it began with. */
  datatype Window = Window(id: Id, domain: string, samples: Samples)

  function AllocatedBytes(rows: seq<Allocation>): nat {
    if rows == [] then 0 else AllocatedBytes(rows[..|rows| - 1]) + rows[|rows| - 1].bytes
  }

  function Coins(rows: seq<Earning>): nat {
    if rows == [] then 0 else Coins(rows[..|rows| - 1]) + rows[|rows| - 1].coins
  }

  function Uncollected(rows: seq<Earning>): nat {
    if rows == [] then 0
    else Uncollected(rows[..|rows| - 1]) + if rows[|rows| - 1].collected then 0 else rows[|rows| - 1].coins
  }

  /** `UPDATE earnings SET collected=1`. */
  function MarkCollected(rows: seq<Earning>): seq<Earning> {
    seq(|rows|, i requires 0 <= i < |rows| => rows[i].(collected := true))
  }

  lemma {:induction false} MarkingKeepsCoins(rows: seq<Earning>)
    ensures Coins(MarkCollected(rows)) == Coins(rows) && Uncollected(MarkCollected(rows)) == 0
  {
    if rows != [] {
      var marked := MarkCollected(rows);
      assert marked[..|marked| - 1] == MarkCollected(rows[..|rows| - 1]);
      MarkingKeepsCoins(rows[..|rows| - 1]);
    }
  }

  /** One division step of the reward: coins earned, and the fraction kept. */
  function Earn(remainder: nat, credit: nat): (nat, nat) {
    ((remainder + credit) / COIN_BYTES, (remainder + credit) % COIN_BYTES)
  }

  function Sum(credits: seq<nat>): nat {
    if credits == [] then 0 else Sum(credits[..|credits| - 1]) + credits[|credits| - 1]
  }

  /** All coins earned from a history of credits, and the final fraction. */
  function EarnAll(credits: seq<nat>): (nat, nat) {
    if credits == [] then (0, 0)
    else
      var (coins, remainder) := EarnAll(credits[..|credits| - 1]);
      var (more, left) := Earn(remainder, credits[|credits| - 1]);
      (coins + more, left)
  }

  lemma DivisionCarries(total: nat, credit: nat)
    ensures total / COIN_BYTES + (total % COIN_BYTES + credit) / COIN_BYTES == (total + credit) / COIN_BYTES
    ensures (total % COIN_BYTES + credit) % COIN_BYTES == (total + credit) % COIN_BYTES
  {
  }

  /** However recovered space was split over cleanups, the coins are those of the total. */
  lemma {:induction false} SplittingEarnsTheSame(credits: seq<nat>)
    ensures EarnAll(credits) == (Sum(credits) / COIN_BYTES, Sum(credits) % COIN_BYTES)
  {
    if credits != [] {
      SplittingEarnsTheSame(credits[..|credits| - 1]);
      DivisionCarries(Sum(credits[..|credits| - 1]), credits[|credits| - 1]);
    }
  }

  /** The window of an allocation is closed, and gave out exactly that much, within its own observation. */
  ghost predicate Settled(windows: map<Id, WindowRow>, a: Allocation) {
    && a.window in windows && windows[a.window].state == Closed
    && windows[a.window].credited == a.bytes && windows[a.window].after.Some?
    && a.bytes <= SatSub(windows[a.window].after.value, windows[a.window].before)
    && a.bytes <= windows[a.window].private
  }

  /** One allocation and one earning per operation, and one allocation per window. */
  ghost predicate Paired(windows: map<Id, WindowRow>, allocations: seq<Allocation>, earnings: seq<Earning>) {
    && |earnings| == |allocations|
    && (forall i :: 0 <= i < |allocations| ==> earnings[i].op == allocations[i].op)
    && (forall i, j :: 0 <= i < j < |allocations| ==>
          allocations[i].op != allocations[j].op && allocations[i].window != allocations[j].window)
    && (forall i :: 0 <= i < |allocations| ==> Settled(windows, allocations[i]))
  }

  /** Conservation: every credited byte is allocated, and is either in a coin or in the remainder. */
  ghost predicate Balanced(allocations: seq<Allocation>, earnings: seq<Earning>, collected: nat, remainder: nat,
                           credited: nat) {
    && AllocatedBytes(allocations) == credited
    && remainder == credited % COIN_BYTES
    && Coins(earnings) == credited / COIN_BYTES
    && collected + Uncollected(earnings) == Coins(earnings)
  }

  /** At most one open window per storage domain. */
  ghost predicate OneOpen(windows: map<Id, WindowRow>) {
    forall a, b :: a in windows && b in windows && a != b && windows[a].state == Open && windows[b].state == Open ==>
      windows[a].domain != windows[b].domain
  }

  /** Every operation's row holds its own receipt. */
  ghost predicate Keyed(operations: map<Id, OpRow>) {
    forall o :: o in operations ==> operations[o].receipt.id == o
  }

  /** Only the state of one row moves. */
  function Marking(operations: map<Id, OpRow>, id: Id, state: OpState): map<Id, OpRow>
    requires id in operations
  {
    operations[id := operations[id].(state := state)]
  }

  /** A row after a restart: what had not ended is interrupted, and cannot be restored. */
  function Reconciled(row: OpRow): OpRow {
    if row.state.Ended? then row
    else row.(state := Ended(Interrupted), receipt := row.receipt.(outcome := Interrupted, canRestore := false))
  }

  /** A window after a restart: none stays open. */
  function Expired(row: WindowRow): WindowRow {
    if row.state == Open then row.(state := Stale) else row
  }

  lemma ExpiredPairs(windows: map<Id, WindowRow>, allocations: seq<Allocation>, earnings: seq<Earning>)
    requires Paired(windows, allocations, earnings)
    ensures Paired(map w | w in windows :: Expired(windows[w]), allocations, earnings)
  {
  }

  lemma RemainderIsSmall(allocations: seq<Allocation>, earnings: seq<Earning>, collected: nat, remainder: nat,
                         credited: nat)
    requires Balanced(allocations, earnings, collected, remainder, credited)
    ensures remainder < COIN_BYTES
  {
  }

  lemma AllocationBalances(allocations: seq<Allocation>, earnings: seq<Earning>, collected: nat, remainder: nat,
                           credited: nat, a: Allocation)
    requires Balanced(allocations, earnings, collected, remainder, credited)
    ensures var (coins, left) := Earn(remainder, a.bytes);
      Balanced(allocations + [a], earnings + [Earning(a.op, coins, false)], collected, left, credited + a.bytes)
  {
    var coins := Earn(remainder, a.bytes).0;
    DivisionCarries(credited, a.bytes);
    assert (allocations + [a])[..|allocations|] == allocations;
    assert (earnings + [Earning(a.op, coins, false)])[..|earnings|] == earnings;
  }

  lemma AllocationPairs(windows: map<Id, WindowRow>, allocations: seq<Allocation>, earnings: seq<Earning>,
                        a: Allocation, coins: nat, row: WindowRow)
    requires Paired(windows, allocations, earnings) && a.window in windows && windows[a.window].state != Closed
    requires forall i :: 0 <= i < |allocations| ==> allocations[i].op != a.op
    requires Settled(windows[a.window := row], a)
    ensures Paired(windows[a.window := row], allocations + [a], earnings + [Earning(a.op, coins, false)])
  {
    assert forall i :: 0 <= i < |allocations| ==> allocations[i].window != a.window;
  }

  /** The rows a restart finds unfinished. */
  function Unfinished(operations: map<Id, OpRow>): set<Id> { set o | o in operations && !operations[o].state.Ended? }

  predicate Fails(faults: seq<bool>, i: nat) { i < |faults| && faults[i] }

  /** The first `n` statements do not fail. */
  predicate Passes(faults: seq<bool>, n: nat) { forall i :: 0 <= i < n ==> !Fails(faults, i) }

  lemma ReconcilingKeeps(operations: map<Id, OpRow>, o: Id)
    requires Keyed(operations) && o in operations
    ensures Keyed(operations[o := Reconciled(operations[o])])
  {
  }

  lemma NoneOpen(windows: map<Id, WindowRow>)
    ensures OneOpen(map w | w in windows :: Expired(windows[w]))
  {
  }

  class Store {
    var operations: map<Id, OpRow>
    var manifest: map<Id, map<Path, Identity>>      // cleanup_entries, by operation
    var parents: map<Id, seq<(Key, nat)>>           // operation_parents: the ancestors and their modes
    var windows: map<Id, WindowRow>
    var allocations: seq<Allocation>
    var earnings: seq<Earning>
    var collected: nat
    var remainder: nat
    var credited: nat

    ghost predicate Valid()
      reads this
    {
      && Paired(windows, allocations, earnings)
      && Balanced(allocations, earnings, collected, remainder, credited)
      && OneOpen(windows)
      && Keyed(operations)
    }

    ghost function Ledger(): (map<Id, WindowRow>, seq<Allocation>, seq<Earning>, nat, nat, nat)
      reads this
    {
      (windows, allocations, earnings, collected, remainder, credited)
    }

    constructor ()
      ensures Valid() && operations == map[] && manifest == map[] && windows == map[] && allocations == []
    {
      operations, manifest, parents, windows := map[], map[], map[], map[];
      allocations, earnings := [], [];
      collected, remainder, credited := 0, 0, 0;
    }

    /** `prepare_operation`: a new row, before anything else happens. */
    method Prepare(candidate: Candidate, receipt: Receipt, fault: bool) returns (ok: bool)
      requires Valid()
      modifies this`operations
      ensures Valid()
      ensures ok == (!fault && receipt.id !in old(operations))
      ensures operations ==
        if ok then old(operations)[receipt.id := OpRow(candidate, receipt, None, Begun)] else old(operations)
    {
      ok := !fault && receipt.id !in operations;
      if ok {
        operations := operations[receipt.id := OpRow(candidate, receipt, None, Begun)];
      }
    }

    /** `finish_operation`: an `UPDATE`, which touches no row but the receipt's. */
    method FinishOperation(receipt: Receipt, trashIdentity: Option<Identity>, fault: bool) returns (ok: bool)
      requires Valid()
      modifies this`operations
      ensures Valid() && ok == !fault
      ensures operations ==
        if ok && receipt.id in old(operations)
        then old(operations)[receipt.id :=
               OpRow(old(operations)[receipt.id].candidate, receipt, trashIdentity, Ended(receipt.outcome))]
        else old(operations)
    {
      ok := !fault;
      if ok && receipt.id in operations {
        var row := OpRow(operations[receipt.id].candidate, receipt, trashIdentity, Ended(receipt.outcome));
        operations := operations[receipt.id := row];
      }
    }

    /** `UPDATE operations SET state`. */
    method Mark(id: Id, state: OpState, fault: bool) returns (ok: bool)
      requires Valid()
      modifies this`operations
      ensures Valid() && ok == !fault
      ensures operations ==
        if ok && id in old(operations) then Marking(old(operations), id, state) else old(operations)
    {
      ok := !fault;
      if ok && id in operations {
        operations := operations[id := operations[id].(state := state)];
      }
    }

    /** The manifest transaction: the rows and the ancestors, all or nothing; both tables have primary keys. */
    method CommitManifest(id: Id, rows: map<Path, Identity>, ancestors: seq<(Key, nat)>, fault: bool) returns (ok: bool)
      requires Valid()
      modifies this`manifest, this`parents
      ensures Valid() && ok == (!fault && id !in old(manifest) && id !in old(parents))
      ensures manifest == if ok then old(manifest)[id := rows] else old(manifest)
      ensures parents == if ok then old(parents)[id := ancestors] else old(parents)
    {
      ok := !fault && id !in manifest && id !in parents;
      if ok {
        manifest, parents := manifest[id := rows], parents[id := ancestors];
      }
    }

    method EraseManifest(id: Id, fault: bool) returns (ok: bool)
      requires Valid()
      modifies this`manifest
      ensures Valid() && ok == !fault
      ensures manifest == if ok then old(manifest) - {id} else old(manifest)
    {
      ok := !fault;
      if ok {
        manifest := manifest - {id};
      }
    }

    ghost predicate DomainBusy(domain: string)
      reads this`windows
    {
      exists w :: w in windows && windows[w].state == Open && windows[w].domain == domain
    }

    /** `accounting::begin`: one open window per storage domain. */
    method Begin(id: Id, domain: string, samples: Option<Samples>) returns (window: Option<Window>)
      requires Valid()
      modifies this`windows
      ensures Valid()
      ensures window.Some?
        <==> samples.Some? && id !in old(windows) && !old(DomainBusy(domain)) && Maximum(samples.value) <= MAX_I64
      ensures window.Some? ==>
        && window == Some(Window(id, domain, samples.value))
        && windows == old(windows)[id := WindowRow(domain, Maximum(samples.value), None, 0, 0, Open)]
      ensures window.None? ==> windows == old(windows)
    {
      if samples.None? || id in windows || Maximum(samples.value) > MAX_I64
         || exists w :: w in windows && windows[w].state == Open && windows[w].domain == domain
      {
        return None;
      }
      windows := windows[id := WindowRow(domain, Maximum(samples.value), None, 0, 0, Open)];
      return Some(Window(id, domain, samples.value));
    }

    /** What stops an allocation: a finished window, a bound, or the tables themselves. */
    ghost predicate Allocatable(window: Id, after: nat, private: nat, credit: nat, receipt: Receipt)
      reads this
    {
      && window in windows && windows[window].state == Open
      && credit <= SatSub(after, windows[window].before) && credit <= private && credit <= receipt.reported
      && Storable(window, after, private, credit, receipt)
    }

    /** The tables take the rows: 64-bit signed values, a known operation without an allocation. */
    ghost predicate Storable(window: Id, after: nat, private: nat, credit: nat, receipt: Receipt)
      reads this
    {
      && remainder + credit <= MAX_U64
      && after <= MAX_I64 && private <= MAX_I64 && credit <= MAX_I64
      && receipt.id in operations
      && forall i :: 0 <= i < |allocations| ==> allocations[i].op != receipt.id
    }

    method Allocate(window: Id, after: nat, private: nat, credit: nat, receipt: Receipt,
                    fault: bool) returns (ok: bool, result: Receipt)
      requires Valid()
      modifies this`windows, this`allocations, this`earnings, this`remainder, this`credited, this`operations
      ensures Valid()
      ensures ok <==> !fault && old(Allocatable(window, after, private, credit, receipt))
      ensures !ok ==> Ledger() == old(Ledger()) && operations == old(operations)
      ensures ok ==>
        && result == receipt.(credited := credit, coins := Earn(old(remainder), credit).0)
        && allocations == old(allocations) + [Allocation(receipt.id, window, credit)]
        && earnings == old(earnings) + [Earning(receipt.id, result.coins, false)]
        && credited == old(credited) + credit && remainder == Earn(old(remainder), credit).1
        && windows == old(windows)[window :=
             old(windows)[window].(after := Some(after), private := private, credited := credit, state := Closed)]
        && operations == old(operations)[receipt.id :=
             old(operations)[receipt.id].(receipt := result, state := Ended(receipt.outcome))]
      ensures ok && credit == 0 ==> result.coins == 0
      ensures result.(credited := receipt.credited, coins := receipt.coins) == receipt
    {
      hide Paired, Balanced;
      RemainderIsSmall(allocations, earnings, collected, remainder, credited);
      result := receipt;
      if fault || window !in windows || windows[window].state != Open { return false, result; }
      var row := windows[window];
      if credit > SatSub(after, row.before) || credit > private || credit > receipt.reported { return false, result; }
      if remainder + credit > MAX_U64 { return false, result; }
      var accumulated := remainder + credit;
      var coins := accumulated / COIN_BYTES;
      // The receipt is written before the rows; a failed insert rolls back the tables only.
      result := receipt.(credited := credit, coins := coins);
      if receipt.id !in operations || (exists i :: 0 <= i < |allocations| && allocations[i].op == receipt.id)
         || credit > MAX_I64 || after > MAX_I64 || private > MAX_I64
      {
        return false, result;
      }
      var closed := row.(after := Some(after), private := private, credited := credit, state := Closed);
      AllocationBalances(allocations, earnings, collected, remainder, credited, Allocation(receipt.id, window, credit));
      AllocationPairs(windows, allocations, earnings, Allocation(receipt.id, window, credit), coins, closed);
      allocations := allocations + [Allocation(receipt.id, window, credit)];
      earnings := earnings + [Earning(receipt.id, coins, false)];
      remainder, credited := accumulated % COIN_BYTES, credited + credit;
      windows := windows[window := closed];
      operations :=
        operations[receipt.id := operations[receipt.id].(receipt := result, state := Ended(receipt.outcome))];
      return true, result;
    }

    /** `supported_credit`: the credit, with the observed bytes noted on the receipt. */
    method SupportedCredit(receipt: Receipt, private: nat, known: bool,
                           budget: Option<Budget>) returns (credit: nat, result: Receipt)
      ensures credit == Credit(receipt.operation, receipt.outcome, receipt.reported, private, known, budget)
      ensures result == receipt.(observed := if budget.Some? then budget.value.observed else 0)
    {
      if budget.None? { return 0, receipt.(observed := 0); }
      result := receipt.(observed := budget.value.observed);
      var supported := SatSub(budget.value.observed, budget.value.ambient);
      if receipt.operation != Permanent || receipt.outcome != Deleted || !known || private == 0
         || receipt.reported == 0 || budget.value.observed == 0 || supported == 0
      {
        return 0, result;
      }
      credit := Min(private, Min(receipt.reported, supported));
    }

    /**
     * `accounting::finish`.  The bound check of `Allocate` never refuses a
     * credit computed here: it fails only on a window no longer open, on the tables, or on a failing database.
     */
    method Finish(window: Window, after: Option<Samples>, private: nat, known: bool, receipt: Receipt,
                  fault: bool) returns (ok: bool, result: Receipt)
      requires Valid() && window.id in windows && windows[window.id].before == Maximum(window.samples)
      modifies this`windows, this`allocations, this`earnings, this`remainder, this`credited, this`operations
      ensures Valid()
      ensures var budget := if after.Some? then RecoveryBudget(window.samples, after.value) else None;
        var low := if budget.Some? then budget.value.after else Maximum(window.samples);
        var credit := Credit(receipt.operation, receipt.outcome, receipt.reported, private, known, budget);
        && (ok <==>
              && !fault && old(windows)[window.id].state == Open
              && old(Storable(window.id, low, private, credit, receipt)))
        && (ok ==>
              && result.credited == credit && result.coins == Earn(old(remainder), credit).0
              && credited == old(credited) + credit
              && operations == old(operations)[receipt.id :=
                   old(operations)[receipt.id].(receipt := result, state := Ended(receipt.outcome))])
      ensures !ok ==> Ledger() == old(Ledger()) && operations == old(operations)
      ensures result.(observed := receipt.observed, credited := receipt.credited, coins := receipt.coins) == receipt
    {
      var budget := if after.Some? then RecoveryBudget(window.samples, after.value) else None;
      var low := if budget.Some? then budget.value.after else Maximum(window.samples);
      var credit, noted := SupportedCredit(receipt, private, known, budget);
      ok, result := Allocate(window.id, low, private, credit, noted, fault);
    }

    /** Move every earned coin into the wallet, once, in one transaction. */
    method Collect(fault: bool) returns (ok: bool, before: nat, after: nat, coins: nat)
      requires Valid()
      modifies this`earnings, this`collected
      ensures Valid() && ok == !fault
      ensures !ok ==> Ledger() == old(Ledger())
      ensures ok ==>
        before == old(collected) && after == collected == before + coins && coins == old(Uncollected(earnings))
      ensures ok ==> Uncollected(earnings) == 0
    {
      ok, before, after, coins := !fault, collected, collected, 0;
      if fault { return; }
      coins := Uncollected(earnings);
      if coins == 0 { return; }
      MarkingKeepsCoins(earnings);
      earnings := MarkCollected(earnings);
      collected := collected + coins;
      after := collected;
    }

    /**
     * After a restart: nothing is replayed.  Each unfinished row is updated by
     * its own statement, then the windows; a database error stops it there,
     * with every row either as it was or interrupted.
     */
    method Reconcile(faults: seq<bool>) returns (ok: bool)
      requires Valid()
      modifies this`windows, this`operations
      ensures Valid() && operations.Keys == old(operations).Keys && windows.Keys == old(windows).Keys
      ensures forall o :: o in operations ==> operations[o] in {old(operations)[o], Reconciled(old(operations)[o])}
      ensures ok ==> forall o :: o in operations ==> operations[o] == Reconciled(old(operations)[o])
      ensures ok ==> forall w :: w in windows ==> windows[w] == Expired(old(windows)[w])
      ensures ok ==> forall w :: w in windows ==> windows[w].state != Open
      ensures ok ==> forall o :: o in operations ==>
        && operations[o].state.Ended?
        && (old(operations)[o].state.Ended? ==> operations[o] == old(operations)[o])
        && (!old(operations)[o].state.Ended? ==>
              && operations[o].state == Ended(Interrupted)
              && operations[o].receipt == old(operations)[o].receipt.(outcome := Interrupted, canRestore := false))
      ensures !ok ==> windows == old(windows)
      ensures
        var unfinished := Unfinished(old(operations));
        ok <==> Passes(faults, |unfinished| + 2)
      ensures true !in faults ==> ok
    {
      hide Paired, Balanced, OneOpen, Keyed;
      ok := false;
      var unfinished := Unfinished(operations);
      ghost var all := unfinished;
      if Fails(faults, 0) { return; }
      var next := 1;
      while unfinished != {}
        invariant Valid() && operations.Keys == old(operations).Keys && unfinished <= all
        invariant windows == old(windows)
        invariant forall o :: o in operations ==>
          operations[o] == if o in unfinished then old(operations)[o] else Reconciled(old(operations)[o])
        invariant next == 1 + |all| - |unfinished| && Passes(faults, next)
        decreases |unfinished|
      {
        if Fails(faults, next) {
          SubsetSize(unfinished, all);
          return;
        }
        var o :| o in unfinished;
        next := next + 1;
        ReconcilingKeeps(operations, o);
        operations := operations[o := Reconciled(operations[o])];
        unfinished := unfinished - {o};
      }
      if Fails(faults, next) { return; }
      NoneOpen(windows);
      ExpiredPairs(windows, allocations, earnings);
      windows := map w | w in windows :: Expired(windows[w]);
      ok := true;
    }
  }
}
