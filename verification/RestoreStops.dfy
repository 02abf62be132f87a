/**
 * What stops a restore: exactly which cancellations, failing calls and
 * changes on disk make it refuse, whatever other processes do meanwhile.
 */
module RestoreStops {
  import opened Prelude
  import opened Metadata
  import opened FileSystem
  import opened Accounting
  import opened Store
  import opened Restore
  import Spec = Removal
  import Run = Execute

  /** What one turn of the others leaves of the file system. */
  function Turned(c: Ctx, fs: Fs, t: Turn): Fs {
    if t.next.Some? && Allowed(c.guarded, fs, t.next.value) then t.next.value else fs
  }

  /** What a call finds after `n` turns, if nothing was moved. */
  function FsAfter(c: Ctx, s: State, n: nat): Fs {
    if n == 0 then s.fs else Turned(c, FsAfter(c, s, n - 1), Spec.TurnAt(s.turns, n - 1))
  }

  predicate Reached(c: Ctx, s0: State, n: nat, s: State) {
    s.fs == FsAfter(c, s0, n) && s.turns == Rest(s0.turns, n)
  }

  lemma TickReaches(c: Ctx, s0: State, n: nat, s: State)
    requires Reached(c, s0, n, s)
    ensures Reached(c, s0, n + 1, Tick(c, s).0) && Tick(c, s).1 == Spec.TurnAt(s0.turns, n)
    ensures Tick(c, s).0.operations == s.operations
  {
    hide Allowed;
  }

  predicate Faulty(s: State, i: nat) { Spec.TurnAt(s.turns, i).fault }

  predicate Stopped(s: State, i: nat) { Spec.TurnAt(s.turns, i).cancelled }

  /** The trashed item is inspected from turn `n` on: two calls, then the measurement between two checkpoints. */
  predicate Found(c: Ctx, s: State, n: nat, row: OpRow) {
    && !Faulty(s, n) && !Faulty(s, n + 1) && !Stopped(s, n + 2) && !Stopped(s, n + 3)
    && Waiting(FsAfter(c, s, n + 2), row)
    && c.facts.measured.Some? && Run.Contents(c.facts.measured.value) == row.candidate.contents
  }

  lemma InspectNeeds(c: Ctx, s0: State, n: nat, s: State, row: OpRow)
    requires Reached(c, s0, n, s) && row.receipt.trash.Some?
    ensures var (s', observed) := Inspect(c, s, row);
      && (observed.Some? <==> Found(c, s0, n, row))
      && (observed.Some? ==>
            Reached(c, s0, n + 4, s') && observed.value == Seen(FsAfter(c, s0, n + 2), row)
            && s'.operations == s.operations)
  {
    TickReaches(c, s0, n, s);
    var s1 := Tick(c, s).0;
    TickReaches(c, s0, n + 1, s1);
    var s2 := Tick(c, s1).0;
    TickReaches(c, s0, n + 2, s2);
    var s3 := Tick(c, s2).0;
    TickReaches(c, s0, n + 3, s3);
    hide Tick, FsAfter, Rest, Spec.TurnAt, Waiting, Seen, Run.Contents;
  }

  /** The checks pass from turn `n` on. */
  predicate Passes(c: Ctx, s: State, n: nat, row: OpRow) {
    && row.receipt.operation == Trash && row.receipt.outcome == Trashed && row.receipt.canRestore
    && c.facts.authorized && c.recorded == Some(c.facts.ancestors) && row.receipt.trash.Some?
    && !Faulty(s, n) && !Faulty(s, n + 1) && !Faulty(s, n + 2)
    && Found(c, s, n + 3, row)
  }

  /**
   * The checks pass exactly for a trashed item that may be restored, under
   * an authorized location with its recorded ancestors, found where it was
   * left with its contents, if no call fails and nobody cancels.
   */
  lemma CheckNeeds(c: Ctx, s0: State, n: nat, s: State, row: OpRow)
    requires Reached(c, s0, n, s)
    ensures var (s', observed) := Check(c, s, row);
      && (observed.Some? <==> Passes(c, s0, n, row))
      && (observed.Some? ==>
            Reached(c, s0, n + 7, s') && Waiting(FsAfter(c, s0, n + 5), row)
            && observed.value == Seen(FsAfter(c, s0, n + 5), row) && s'.operations == s.operations)
  {
    hide Tick, FsAfter, Rest, Spec.TurnAt, Waiting, Seen, Inspect, Reached, Run.Contents;
    TickReaches(c, s0, n, s);
    var s1 := Tick(c, s).0;
    TickReaches(c, s0, n + 1, s1);
    var s2 := Tick(c, s1).0;
    TickReaches(c, s0, n + 2, s2);
    var s3 := Tick(c, s2).0;
    if row.receipt.trash.Some? { InspectNeeds(c, s0, n + 3, s3, row); }
  }

  /** The item is moved back from turn `n` on. */
  predicate GoesBack(c: Ctx, s: State, n: nat, place: Place, dest: Place, observed: Identity) {
    && !Stopped(s, n) && !Faulty(s, n + 1) && !Faulty(s, n + 2)
    && Run.Holding(FsAfter(c, s, n + 2), place, observed)
    && CanReturn(FsAfter(c, s, n + 3), place, dest)
  }

  lemma MoveNeeds(c: Ctx, s0: State, n: nat, s: State, place: Place, dest: Place, observed: Identity)
    requires Reached(c, s0, n, s)
    ensures var (s', moved) := Move(c, s, place, dest, observed);
      && (moved <==> GoesBack(c, s0, n, place, dest, observed))
      && (moved ==> s'.turns == Rest(s0.turns, n + 3))
  {
    TickReaches(c, s0, n, s);
    var s1 := Tick(c, s).0;
    TickReaches(c, s0, n + 1, s1);
    var s2 := Tick(c, s1).0;
    TickReaches(c, s0, n + 2, s2);
    hide Tick, FsAfter, Rest, Spec.TurnAt, CanReturn, Returned, Run.Holding;
  }

  /** Both updates of the row and the move between them succeed from turn `n` on. */
  predicate Completes(c: Ctx, s: State, n: nat, row: OpRow, observed: Identity)
    requires row.receipt.trash.Some?
  {
    && !Faulty(s, n) && !Faulty(s, n + 4)
    && GoesBack(c, s, n + 1, row.receipt.trash.value, row.candidate.place, observed)
  }

  lemma CarryNeeds(c: Ctx, s0: State, n: nat, s: State, row: OpRow, observed: Identity)
    requires Reached(c, s0, n, s) && row.receipt.trash.Some?
    ensures Carry(c, s, row, observed).1.Ok? <==> Completes(c, s0, n, row, observed)
  {
    var (place, dest) := (row.receipt.trash.value, row.candidate.place);
    TickReaches(c, s0, n, s);
    var (s1, marked) := Mark(c, s, row, Restoring);
    assert Reached(c, s0, n + 1, s1) && marked == !Faulty(s0, n);
    MoveNeeds(c, s0, n + 1, s1, place, dest, observed);
    var (s2, moved) := Move(c, s1, place, dest, observed);
    if moved { assert Tick(c, s2).1 == Spec.TurnAt(s0.turns, n + 4); }
    hide Mark, Move, FsAfter, Rest, Spec.TurnAt, GoesBack, Stored, Final;
  }

  /**
   * A restore succeeds if and only if its row was read, the checks pass, and
   * the item seen then is moved between the two updates of its row.
   */
  lemma RestoresExactly(c: Ctx, s: State)
    ensures Attempt(c, s).1.Ok? <==>
      && !Faulty(s, 0) && c.id in s.operations && Passes(c, s, 1, s.operations[c.id])
      && Completes(c, s, 8, s.operations[c.id], Seen(FsAfter(c, s, 6), s.operations[c.id]))
  {
    assert Reached(c, s, 0, s);
    TickReaches(c, s, 0, s);
    var s1 := Tick(c, s).0;
    if !Faulty(s, 0) && c.id in s1.operations {
      var row := s1.operations[c.id];
      CheckNeeds(c, s, 1, s1, row);
      var (s2, observed) := Check(c, s1, row);
      hide Tick, Check, Carry, FsAfter, Rest, Spec.TurnAt, Reached, Completes, Waiting, Seen, Found;
      if observed.Some? { CarryNeeds(c, s, 8, s2, row, observed.value); }
    }
  }
}
