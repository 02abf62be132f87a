/**
 * Putting a trashed item back under its original name.  `Attempt` is what a
 * restore does, as a function on the whole state; before every call other
 * processes get a turn, which also says whether the call fails.
 */
module Restore {
  import opened Prelude
  import opened Metadata
  import opened FileSystem
  import opened Accounting
  import opened Store
  import Spec = Removal
  import Closure = LinkClosure
  import Run = Execute

  type Turn = Spec.Turn

  /**
   * What the parts outside this model answer: the location is authorized, the
   * ancestors' identities, the trashed contents.
   */
  datatype Facts = Facts(authorized: bool, ancestors: seq<(Key, nat)>, measured: Option<Run.Measured>)

  /** What stays fixed during a restore: the operation, the ancestors recorded for it, and who leaves what alone. */
  datatype Ctx = Ctx(id: Id, facts: Facts, recorded: Option<seq<(Key, nat)>>, guarded: set<Key>)

  /** An attempt to store the operation's state, and whether the database took it. */
  datatype Write = Write(state: OpState, stored: bool)

  datatype State = State(
    fs: Fs,
    turns: seq<Turn>,
    operations: map<Id, OpRow>,
    moves: seq<Spec.Step>,   // the engine's own changes of the file system
    writes: seq<Write>)      // the engine's own writes to the operation's row

  // ---- What a restore checks ----------------------------------------------

  /** Native Trash may touch a directory after returning, so only its change time may differ; a file must be exact. */
  predicate SameTrashed(expected: Identity, observed: Identity) {
    if Kind(expected.mode) == KIND_DIRECTORY then SameAfterRename(expected, observed) else expected == observed
  }

  /** A directory whose change time alone moved is still the trashed one; anything else must be as it was stored. */
  lemma DriftIsTolerated(expected: Identity, observed: Identity)
    ensures SameTrashed(expected, observed) <==>
      observed == if expected.mode / 0x1000 % 0x10 == 4 then expected.(changed := observed.changed) else expected
  {
  }

  predicate Restorable(row: OpRow) {
    row.receipt.operation == Trash && row.receipt.outcome == Trashed && row.receipt.canRestore
  }

  /** All that does not depend on the file system. */
  predicate Restores(c: Ctx, row: OpRow) {
    && Restorable(row) && c.facts.authorized && c.recorded == Some(c.facts.ancestors)
    && row.receipt.trash.Some? && row.trashIdentity.Some?
    && c.facts.measured.Some? && Run.Contents(c.facts.measured.value) == row.candidate.contents
  }

  /** The trashed item is where it was left, as the stored identity has it. */
  predicate Waiting(fs: Fs, row: OpRow) {
    && row.receipt.trash.Some? && row.trashIdentity.Some?
    && var place := row.receipt.trash.value;
       Stat(fs, place.dir, place.name).Some?
       && SameTrashed(row.trashIdentity.value, Stat(fs, place.dir, place.name).value.identity)
  }

  function Seen(fs: Fs, row: OpRow): Identity
    requires Waiting(fs, row)
  {
    Stat(fs, row.receipt.trash.value.dir, row.receipt.trash.value.name).value.identity
  }

  predicate CanReturn(fs: Fs, place: Place, dest: Place) { CanRename(fs, place.dir, place.name, dest.dir, dest.name) }

  function Returned(fs: Fs, place: Place, dest: Place): Fs
    requires CanReturn(fs, place, dest)
  {
    Rename(fs, place.dir, place.name, dest.dir, dest.name)
  }

  /** Everything an undisturbed restore needs. */
  predicate Ready(c: Ctx, fs: Fs, row: OpRow) {
    Restores(c, row) && Waiting(fs, row) && CanReturn(fs, row.receipt.trash.value, row.candidate.place)
  }

  // ---- What a restore does --------------------------------------------------

  function Tick(c: Ctx, s: State): (r: (State, Turn)) {
    if s.turns == [] then (s, Spec.QUIET)
    else
      var t := s.turns[0];
      var rest := s.(turns := s.turns[1..]);
      (if t.next.Some? && Allowed(c.guarded, s.fs, t.next.value) then rest.(fs := t.next.value) else rest, t)
  }

  /** One statement on the operation's row. */
  function Stored(c: Ctx, s: State, row: OpRow, fault: bool): State {
    var noted := s.(writes := s.writes + [Write(row.state, !fault)]);
    if !fault && c.id in s.operations then noted.(operations := s.operations[c.id := row]) else noted
  }

  function Mark(c: Ctx, s: State, row: OpRow, state: OpState): (r: (State, bool)) {
    var (s1, t) := Tick(c, s);
    (Stored(c, s1, row.(state := state), t.fault), !t.fault)
  }

  /** The second mark replaces the first. */
  lemma MarkedTwice(c: Ctx, s: State, row: OpRow, first: OpState, second: OpState)
    ensures Mark(c, s, row.(state := first), second) == Mark(c, s, row, second)
  {
  }

  /** The checks before any change: the observed identity of the trashed item, if all pass. */
  function Check(c: Ctx, s: State, row: OpRow): (r: (State, Option<Identity>)) {
    if !Restorable(row) then (s, None)
    else
      var (s1, t1) := Tick(c, s);
      if t1.fault || !c.facts.authorized then (s1, None)
      else
        var (s2, t2) := Tick(c, s1);
        if t2.fault || c.recorded != Some(c.facts.ancestors) then (s2, None)
        else
          var (s3, t3) := Tick(c, s2);
          if t3.fault || row.receipt.trash.None? then (s3, None) else Inspect(c, s3, row)
  }

  /** The trashed item itself: its place, its identity, its contents. */
  function Inspect(c: Ctx, s: State, row: OpRow): (r: (State, Option<Identity>))
    requires row.receipt.trash.Some?
  {
    var (s1, t1) := Tick(c, s);
    if t1.fault then (s1, None)
    else
      var (s2, t2) := Tick(c, s1);
      if t2.fault || !Waiting(s2.fs, row) then (s2, None)
      else
        var observed := Seen(s2.fs, row);
        var (s3, t3) := Tick(c, s2);
        if t3.cancelled || c.facts.measured.None? || Run.Contents(c.facts.measured.value) != row.candidate.contents
        then (s3, None)
        else
          var (s4, t4) := Tick(c, s3);
          (s4, if t4.cancelled then None else Some(observed))
  }

  /** The move back, after one more look at the item. */
  function Move(c: Ctx, s: State, place: Place, dest: Place, observed: Identity): (r: (State, bool)) {
    var (s1, t1) := Tick(c, s);
    if t1.cancelled then (s1, false)
    else
      var (s2, t2) := Tick(c, s1);
      if t2.fault || !Run.Holding(s2.fs, place, observed) then (s2, false)
      else
        var (s3, t3) := Tick(c, s2);
        if t3.fault || !CanReturn(s3.fs, place, dest) then (s3, false)
        else
          var next := Returned(s3.fs, place, dest);
          (s3.(fs := next, moves := s3.moves + [Spec.Step(true, s3.fs, next)]), true)
  }

  /** From the first write on. */
  function Carry(c: Ctx, s: State, row: OpRow, observed: Identity): (r: (State, Run.Result))
    requires row.receipt.trash.Some?
  {
    var (s1, marked) := Mark(c, s, row, Restoring);
    if !marked then (s1, Run.Err)
    else
      var (s2, moved) := Move(c, s1, row.receipt.trash.value, row.candidate.place, observed);
      if !moved then (Mark(c, s2, row, Ended(Trashed)).0, Run.Err)
      else
        var (s3, t3) := Tick(c, s2);
        (Stored(c, s3, Final(row), t3.fault), if t3.fault then Run.Err else Run.Ok(Final(row).receipt))
  }

  function Attempt(c: Ctx, s: State): (r: (State, Run.Result)) {
    var (s1, t1) := Tick(c, s);
    if t1.fault || c.id !in s1.operations then (s1, Run.Err)
    else
      var row := s1.operations[c.id];
      var (s2, observed) := Check(c, s1, row);
      if observed.None? || row.receipt.trash.None? then (s2, Run.Err) else Carry(c, s2, row, observed.value)
  }

  // ---- Waiting ----------------------------------------------------------------

  /** Only other processes acted; with no turns left nothing did. */
  predicate Waited(c: Ctx, s: State, s': State) {
    && Allowed(c.guarded, s.fs, s'.fs)
    && s'.operations == s.operations && s'.moves == s.moves && s'.writes == s.writes
    && (s.turns == [] ==> s' == s)
  }

  lemma TickWaits(c: Ctx, s: State)
    ensures Waited(c, s, Tick(c, s).0) && (s.turns == [] ==> Tick(c, s).1 == Spec.QUIET)
  {
  }

  lemma WaitedTrans(c: Ctx, s0: State, s1: State, s2: State)
    requires Waited(c, s0, s1) && Waited(c, s1, s2)
    ensures Waited(c, s0, s2)
  {
  }

  lemma InspectWaits(c: Ctx, s: State, row: OpRow)
    requires row.receipt.trash.Some?
    ensures var (s', observed) := Inspect(c, s, row);
      && Waited(c, s, s')
      && (observed.Some? ==>
            && row.trashIdentity.Some? && SameTrashed(row.trashIdentity.value, observed.value)
            && c.facts.measured.Some? && Run.Contents(c.facts.measured.value) == row.candidate.contents)
      && (s.turns == [] ==> (observed.Some? ==> Run.Holding(s.fs, row.receipt.trash.value, observed.value)))
      && (s.turns == [] ==>
            (observed.Some? <==>
              && Waiting(s.fs, row) && c.facts.measured.Some?
              && Run.Contents(c.facts.measured.value) == row.candidate.contents))
  {
    var s1 := Tick(c, s).0;
    var s2 := Tick(c, s1).0;
    var s3 := Tick(c, s2).0;
    var s4 := Tick(c, s3).0;
    TickWaits(c, s);
    TickWaits(c, s1);
    TickWaits(c, s2);
    TickWaits(c, s3);
    hide Tick, Run.Contents, SameTrashed;
    WaitedTrans(c, s, s1, s2);
    WaitedTrans(c, s, s2, s3);
    WaitedTrans(c, s, s3, s4);
    hide Allowed;
  }

  /** Undisturbed, the checks pass exactly for a restorable item that is where it was left. */
  lemma CheckWaits(c: Ctx, s: State, row: OpRow)
    ensures var (s', observed) := Check(c, s, row);
      && Waited(c, s, s')
      && (observed.Some? ==> Restores(c, row) && SameTrashed(row.trashIdentity.value, observed.value))
      && (s.turns == [] && observed.Some? ==> Run.Holding(s.fs, row.receipt.trash.value, observed.value))
      && (s.turns == [] ==> (observed.Some? <==> Restores(c, row) && Waiting(s.fs, row)))
  {
    var s1 := Tick(c, s).0;
    var s2 := Tick(c, s1).0;
    var s3 := Tick(c, s2).0;
    TickWaits(c, s);
    TickWaits(c, s1);
    TickWaits(c, s2);
    WaitedTrans(c, s, s1, s2);
    WaitedTrans(c, s, s2, s3);
    if row.receipt.trash.Some? {
      InspectWaits(c, s3, row);
      WaitedTrans(c, s, s3, Inspect(c, s3, row).0);
    }
    WaitedTrans(c, s, s, s);
    hide Tick, Inspect, Allowed, Run.Contents, SameTrashed;
  }

  /** Undisturbed, the only drift a restorable item may show is a directory's change time. */
  lemma CheckDrift(c: Ctx, s: State, row: OpRow)
    requires s.turns == [] && Restores(c, row)
    ensures var place := row.receipt.trash.value;
      var found := Stat(s.fs, place.dir, place.name);
      var stored := row.trashIdentity.value;
      Check(c, s, row).1 ==
        if found.Some? && (found.value.identity == stored
                           || (stored.mode / 0x1000 % 0x10 == 4
                               && found.value.identity == stored.(changed := found.value.identity.changed)))
        then Some(found.value.identity) else None
  {
    CheckWaits(c, s, row);
    var place := row.receipt.trash.value;
    var found := Stat(s.fs, place.dir, place.name);
    if found.Some? { DriftIsTolerated(row.trashIdentity.value, found.value.identity); }
    hide Check, Waited, Allowed, SameTrashed, Run.Contents;
  }

  // ---- The move ----------------------------------------------------------------

  /** One exclusive rename from the Trash to the original place. */
  predicate BackStep(step: Spec.Step, place: Place, dest: Place) {
    step.engine && CanReturn(step.before, place, dest) && step.after == Returned(step.before, place, dest)
  }

  predicate MovesObject(step: Spec.Step, place: Place, k: Key) {
    Named(step.before, place.dir, place.name) && step.before.dirs[place.dir][place.name] == k
  }

  /** The engine's only change is the exclusive rename back; other processes acted before and after it. */
  predicate Moved(c: Ctx, s: State, s': State, place: Place, dest: Place, k: Key) {
    && |s'.moves| == |s.moves| + 1 && s.moves <= s'.moves
    && var step := s'.moves[|s.moves|];
    && BackStep(step, place, dest) && Allowed(c.guarded, s.fs, step.before) && Allowed(c.guarded, step.after, s'.fs)
    && (place.dir in c.guarded ==> MovesObject(step, place, k))
    && (s.turns == [] ==> s'.turns == [] && step.before == s.fs && s'.fs == step.after)
  }

  lemma MoveMoves(c: Ctx, s: State, place: Place, dest: Place, observed: Identity)
    ensures var (s', ok) := Move(c, s, place, dest, observed);
      && s'.operations == s.operations && s'.writes == s.writes
      && (if ok then Moved(c, s, s', place, dest, observed.Object()) else Waited(c, s, s'))
      && (s.turns == [] ==> ok == (Run.Holding(s.fs, place, observed) && CanReturn(s.fs, place, dest)))
  {
    var s1 := Tick(c, s).0;
    var s2 := Tick(c, s1).0;
    var s3 := Tick(c, s2).0;
    TickWaits(c, s);
    TickWaits(c, s1);
    TickWaits(c, s2);
    WaitedTrans(c, s, s1, s2);
    WaitedTrans(c, s, s2, s3);
    hide Tick, Returned;
  }

  lemma MovedOn(c: Ctx, s: State, s1: State, s2: State, place: Place, dest: Place, k: Key)
    requires Moved(c, s, s1, place, dest, k) && Waited(c, s1, s2)
    ensures Moved(c, s, s2, place, dest, k)
  {
    hide BackStep, MovesObject;
  }

  lemma MovedAfter(c: Ctx, s: State, s1: State, s2: State, place: Place, dest: Place, k: Key)
    requires Moved(c, s1, s2, place, dest, k)
    requires Allowed(c.guarded, s.fs, s1.fs) && s1.moves == s.moves
    requires (s.turns == [] ==> s1.turns == [] && s1.fs == s.fs)
    ensures Moved(c, s, s2, place, dest, k)
  {
    hide BackStep, MovesObject;
  }

  // ---- How a restore ends ---------------------------------------------------------

  /** Refused before the move: what was written, and what that left. */
  predicate Refused(c: Ctx, s: State, s': State) {
    && Allowed(c.guarded, s.fs, s'.fs) && s'.moves == s.moves && (s.turns == [] ==> s'.fs == s.fs)
    && (|| (s'.writes == s.writes && s'.operations == s.operations)
        || (s'.writes == s.writes + [Write(Restoring, false)] && s'.operations == s.operations)
        || (c.id in s.operations && exists back: bool ::
              && s'.writes == s.writes + [Write(Restoring, true)] + [Write(Ended(Trashed), back)]
              && s'.operations == Marking(s.operations, c.id, if back then Ended(Trashed) else Restoring)))
  }

  function Final(row: OpRow): OpRow {
    OpRow(row.candidate, row.receipt.(outcome := Restored, canRestore := false), None, Ended(Restored))
  }

  /** The item was moved back; without the final write the operation stays `restoring`. */
  predicate Carried(c: Ctx, s: State, s': State, filed: bool) {
    && c.id in s.operations
    && var row := s.operations[c.id];
    && Restores(c, row)
    && Moved(c, s, s', row.receipt.trash.value, row.candidate.place, row.trashIdentity.value.Object())
    && s'.operations ==
         if filed then s.operations[c.id := Final(row)] else Marking(s.operations, c.id, Restoring)
  }

  lemma CarriedRow(c: Ctx, s: State, s': State)
    requires Carried(c, s, s', true)
    ensures c.id in s'.operations && !Restorable(s'.operations[c.id])
    ensures s'.operations[c.id].receipt == s.operations[c.id].receipt.(outcome := Restored, canRestore := false)
  {
    hide Moved, Restores;
  }

  lemma SameTrashedObject(expected: Identity, observed: Identity)
    requires SameTrashed(expected, observed)
    ensures expected.Object() == observed.Object()
  {
  }

  /** After the mark and the move comes the final write. */
  lemma CarriedOn(c: Ctx, s: State, s1: State, s2: State, row: OpRow, observed: Identity)
    requires c.id in s.operations && s.operations[c.id] == row && Restores(c, row)
    requires SameTrashed(row.trashIdentity.value, observed)
    requires (s1, true) == Mark(c, s, row, Restoring) && s2.operations == s1.operations
    requires Moved(c, s1, s2, row.receipt.trash.value, row.candidate.place, observed.Object())
    ensures var (s3, t3) := Tick(c, s2);
      Carried(c, s, Stored(c, s3, Final(row), t3.fault), !t3.fault) && (s.turns == [] ==> !t3.fault)
  {
    var place, dest, k := row.receipt.trash.value, row.candidate.place, observed.Object();
    SameTrashedObject(row.trashIdentity.value, observed);
    TickWaits(c, s);
    TickWaits(c, s2);
    var (s3, t3) := Tick(c, s2);
    hide Tick, Restores, SameTrashed;
    MovedOn(c, s1, s2, s3, place, dest, k);
    MovedAfter(c, s, s1, s3, place, dest, k);
    MovedStored(c, s, s3, place, dest, k, Final(row), t3.fault);
    assert s.turns == [] ==> s2.turns == [] by { hide BackStep, MovesObject, Allowed; }
    hide Moved, Waited, Allowed;
  }

  lemma MovedStored(c: Ctx, s: State, s': State, place: Place, dest: Place, k: Key, row: OpRow, fault: bool)
    requires Moved(c, s, s', place, dest, k)
    ensures Moved(c, s, Stored(c, s', row, fault), place, dest, k)
  {
    hide BackStep, MovesObject, Allowed;
  }

  /** From the first write on: what is moved, and what is stored. */
  lemma CarryEnds(c: Ctx, s: State, row: OpRow, observed: Identity)
    requires c.id in s.operations && s.operations[c.id] == row && Restores(c, row)
    requires SameTrashed(row.trashIdentity.value, observed)
    ensures var (s', result) := Carry(c, s, row, observed);
      && (result.Ok? ==> Carried(c, s, s', true) && result.receipt == Final(row).receipt)
      && (result.Err? ==> Refused(c, s, s') || Carried(c, s, s', false))
      && (s.turns == [] ==>
            (result.Ok? <==>
              && Run.Holding(s.fs, row.receipt.trash.value, observed)
              && CanReturn(s.fs, row.receipt.trash.value, row.candidate.place)))
      && (s.turns == [] && result.Err? ==>
            Refused(c, s, s') && s'.operations == Marking(s.operations, c.id, Ended(Trashed)))
  {
    var place, dest := row.receipt.trash.value, row.candidate.place;
    var (s1, marked) := Mark(c, s, row, Restoring);
    MarkEnds(c, s, row);
    if marked {
      MoveMoves(c, s1, place, dest, observed);
      var (s2, moved) := Move(c, s1, place, dest, observed);
      if moved { CarriedOn(c, s, s1, s2, row, observed); } else { RefusedLate(c, s, s1, s2, row); }
    }
    hide Tick, Mark, Move, Moved, Waited, Restores, SameTrashed, Refused, Carried, Run.Holding, CanReturn, Stored;
  }

  lemma MarkEnds(c: Ctx, s: State, row: OpRow)
    requires c.id in s.operations && s.operations[c.id] == row
    ensures var (s1, marked) := Mark(c, s, row, Restoring);
      (!marked ==> Refused(c, s, s1)) && (s.turns == [] ==> marked && s1.turns == [] && s1.fs == s.fs)
  {
    TickWaits(c, s);
    hide Tick, Allowed;
  }

  lemma RefusedLate(c: Ctx, s: State, s1: State, s2: State, row: OpRow)
    requires c.id in s.operations && s.operations[c.id] == row
    requires (s1, true) == Mark(c, s, row, Restoring) && Waited(c, s1, s2)
    ensures var s' := Mark(c, s2, row, Ended(Trashed)).0;
      && Refused(c, s, s')
      && (s.turns == [] ==> s'.operations == Marking(s.operations, c.id, Ended(Trashed)))
  {
    TickWaits(c, s);
    TickWaits(c, s2);
    var s3 := Tick(c, s2).0;
    var s' := Mark(c, s2, row, Ended(Trashed)).0;
    WaitedTrans(c, s1, s2, s3);
    AllowedThrough(c, s, s1, s3);
    hide Tick, Allowed;
    assert s'.writes == s.writes + [Write(Restoring, true)] + [Write(Ended(Trashed), !Tick(c, s2).1.fault)];
  }

  lemma AllowedThrough(c: Ctx, s: State, s1: State, s3: State)
    requires Allowed(c.guarded, s.fs, s1.fs) && Allowed(c.guarded, s1.fs, s3.fs)
    ensures Allowed(c.guarded, s.fs, s3.fs)
  {
  }

  /**
   * Every exit of a restore, whatever other processes do: it succeeds only by
   * moving the trashed item, with the reviewed contents, back over no other
   * name; it earns nothing and ends restorability.  A refusal before the move
   * changes no file and no receipt.  Undisturbed it succeeds exactly when it should.
   */
  lemma AttemptEnds(c: Ctx, s: State)
    ensures var (s', result) := Attempt(c, s);
      && (result.Ok? ==> Carried(c, s, s', true) && result.receipt == Final(s.operations[c.id]).receipt)
      && (result.Err? ==> Refused(c, s, s') || Carried(c, s, s', false))
      && (s.turns == [] ==> (result.Ok? <==> c.id in s.operations && Ready(c, s.fs, s.operations[c.id])))
      && (s.turns == [] && result.Err? ==> Refused(c, s, s') && Unmoved(c, s, s'))
  {
    TickWaits(c, s);
    var (s1, t1) := Tick(c, s);
    if c.id in s1.operations {
      var row := s1.operations[c.id];
      CheckWaits(c, s1, row);
      var (s2, observed) := Check(c, s1, row);
      WaitedTrans(c, s, s1, s2);
      if observed.Some? {
        CarryEnds(c, s2, row, observed.value);
        EndsEarlier(c, s, s2, Carry(c, s2, row, observed.value).0);
      }
    }
    hide Tick, Check, Carry, Carried, Restores, Waiting, Run.Holding, SameTrashed, CanReturn, Allowed;
  }

  lemma EndsEarlier(c: Ctx, s: State, s1: State, s2: State)
    requires Waited(c, s, s1)
    ensures Refused(c, s1, s2) ==> Refused(c, s, s2)
    ensures forall filed :: Carried(c, s1, s2, filed) ==> Carried(c, s, s2, filed)
  {
    if Refused(c, s1, s2) { AllowedThrough(c, s, s1, s2); }
    forall filed | Carried(c, s1, s2, filed) ensures Carried(c, s, s2, filed) {
      var row := s1.operations[c.id];
      MovedAfter(c, s, s1, s2, row.receipt.trash.value, row.candidate.place, row.trashIdentity.value.Object());
      hide Moved, Restores;
    }
    hide Allowed, Moved, Restores;
  }

  /** The row is as it was, or says `trashed` in any case. */
  predicate Unmoved(c: Ctx, s: State, s': State) {
    || s'.operations == s.operations
    || (c.id in s.operations && s'.operations == Marking(s.operations, c.id, Ended(Trashed)))
  }

  // ---- Restorable again -------------------------------------------------------------

  /** A row as a restore finds it: the Trash completed, and it can be undone. */
  predicate InTrash(operations: map<Id, OpRow>, id: Id) {
    id in operations && operations[id].state == Ended(Trashed) && Restorable(operations[id])
  }

  /** No `restoring` mark was stored, or the mark was taken back. */
  predicate MarkUndone(s: State, s': State) {
    |s.writes| <= |s'.writes|
    && (Write(Restoring, true) !in s'.writes[|s.writes|..] || Write(Ended(Trashed), true) in s'.writes[|s.writes|..])
  }

  /** The turn in which the mark would be taken back, if the restore comes to that: the move failed under a mark. */
  function BackTurn(c: Ctx, s: State): Option<Turn> {
    var (s1, t1) := Tick(c, s);
    if t1.fault || c.id !in s1.operations then None
    else
      var row := s1.operations[c.id];
      var (s2, observed) := Check(c, s1, row);
      if observed.None? || row.receipt.trash.None? then None
      else
        var (s3, marked) := Mark(c, s2, row, Restoring);
        if !marked then None
        else
          var (s4, moved) := Move(c, s3, row.receipt.trash.value, row.candidate.place, observed.value);
          if moved then None else Some(Tick(c, s4).1)
  }

  function Rest(turns: seq<Turn>, n: nat): seq<Turn> { if n < |turns| then turns[n..] else [] }

  lemma TickRest(c: Ctx, s: State, turns: seq<Turn>, n: nat)
    requires s.turns == Rest(turns, n)
    ensures Tick(c, s).0.turns == Rest(turns, n + 1) && Tick(c, s).1 == Spec.TurnAt(turns, n)
  {
  }

  lemma CheckRest(c: Ctx, s: State, row: OpRow, turns: seq<Turn>)
    requires s.turns == Rest(turns, 1) && Check(c, s, row).1.Some?
    ensures Check(c, s, row).0.turns == Rest(turns, 8)
  {
    var s1 := Tick(c, s).0;
    var s2 := Tick(c, s1).0;
    var s3 := Tick(c, s2).0;
    TickRest(c, s, turns, 1);
    TickRest(c, s1, turns, 2);
    TickRest(c, s2, turns, 3);
    hide Tick, Run.Contents, Waiting, Restorable;
    InspectRest(c, s3, row, turns);
    hide Inspect;
  }

  lemma InspectRest(c: Ctx, s: State, row: OpRow, turns: seq<Turn>)
    requires s.turns == Rest(turns, 4) && row.receipt.trash.Some?
    ensures Inspect(c, s, row).1.Some? ==> Inspect(c, s, row).0.turns == Rest(turns, 8)
  {
    var s1 := Tick(c, s).0;
    var s2 := Tick(c, s1).0;
    var s3 := Tick(c, s2).0;
    TickRest(c, s, turns, 4);
    TickRest(c, s1, turns, 5);
    TickRest(c, s2, turns, 6);
    TickRest(c, s3, turns, 7);
    hide Tick, Run.Contents, Waiting;
  }

  lemma MoveRest(c: Ctx, s: State, place: Place, dest: Place, observed: Identity, turns: seq<Turn>)
    requires s.turns == Rest(turns, 9)
    ensures var (s', moved) := Move(c, s, place, dest, observed);
      !moved ==> exists n :: 10 <= n <= 12 && s'.turns == Rest(turns, n)
  {
    var s1 := Tick(c, s).0;
    var s2 := Tick(c, s1).0;
    TickRest(c, s, turns, 9);
    TickRest(c, s1, turns, 10);
    TickRest(c, s2, turns, 11);
    hide Tick, CanReturn, Returned, Run.Holding, Rest;
  }

  /** It is the eleventh, twelfth or thirteenth turn to come. */
  lemma BackTurnIsComing(c: Ctx, s: State)
    ensures BackTurn(c, s).Some? ==> exists n :: 10 <= n <= 12 && BackTurn(c, s).value == Spec.TurnAt(s.turns, n)
  {
    if BackTurn(c, s).Some? {
      assert s.turns == Rest(s.turns, 0);
      TickRest(c, s, s.turns, 0);
      var s1 := Tick(c, s).0;
      var row := s1.operations[c.id];
      CheckRest(c, s1, row, s.turns);
      var (s2, observed) := Check(c, s1, row);
      TickRest(c, s2, s.turns, 8);
      var s3 := Mark(c, s2, row, Restoring).0;
      MoveRest(c, s3, row.receipt.trash.value, row.candidate.place, observed.value, s.turns);
      var s4 := Move(c, s3, row.receipt.trash.value, row.candidate.place, observed.value).0;
      var n :| 10 <= n <= 12 && s4.turns == Rest(s.turns, n);
      TickRest(c, s4, s.turns, n);
      hide Tick, Check, Move, Rest;
    }
  }

  /** The writes after the mark: whether it was taken back is whether that turn's call failed. */
  lemma CarryWrites(c: Ctx, s: State, row: OpRow, observed: Identity)
    requires row.receipt.trash.Some?
    ensures var (s', result) := Carry(c, s, row, observed);
      var (s1, marked) := Mark(c, s, row, Restoring);
      var (s2, moved) := Move(c, s1, row.receipt.trash.value, row.candidate.place, observed);
      if !marked then s'.writes == s.writes + [Write(Restoring, false)]
      else if !moved then s'.writes == s.writes + [Write(Restoring, true), Write(Ended(Trashed), !Tick(c, s2).1.fault)]
      else s'.moves != s.moves
  {
    var (s1, marked) := Mark(c, s, row, Restoring);
    MoveMoves(c, s1, row.receipt.trash.value, row.candidate.place, observed);
    var s2 := Move(c, s1, row.receipt.trash.value, row.candidate.place, observed).0;
    TickWaits(c, s);
    TickWaits(c, s2);
    hide Tick, Move, Allowed, BackStep, MovesObject;
  }

  /** Whether a stored mark is left behind is decided by the coming turns. */
  lemma UndoneByTurn(c: Ctx, s: State)
    ensures var (s', result) := Attempt(c, s);
      s'.moves == s.moves ==> (MarkUndone(s, s') <==> BackTurn(c, s).None? || !BackTurn(c, s).value.fault)
  {
    TickWaits(c, s);
    var (s1, t1) := Tick(c, s);
    var s' := Attempt(c, s).0;
    if !t1.fault && c.id in s1.operations {
      var row := s1.operations[c.id];
      CheckWaits(c, s1, row);
      var (s2, observed) := Check(c, s1, row);
      if observed.Some? && row.receipt.trash.Some? {
        CarryWrites(c, s2, row, observed.value);
        hide Tick, Check, Carry, Mark, Move, Allowed, Restores, SameTrashed, Waiting;
        assert s2.writes == s.writes && s2.moves == s.moves;
        if s'.moves == s.moves { assert s'.writes[|s.writes|..] == s'.writes[|s2.writes|..]; }
      } else {
        hide Tick, Check;
        assert s'.writes[|s.writes|..] == [];
      }
    } else {
      hide Tick;
      assert s'.writes[|s.writes|..] == [];
    }
  }

  /**
   * After a refusal before the move the operation is trashed as before exactly
   * if the mark was not stored or was taken back, always if undisturbed; and
   * only then can it still be restored after a restart.
   */
  lemma TrashedAgain(c: Ctx, s: State)
    requires InTrash(s.operations, c.id)
    ensures var (s', result) := Attempt(c, s);
      s'.moves == s.moves ==>
        && result.Err?
        && (s'.operations == s.operations <==> MarkUndone(s, s'))
        && (s.turns == [] ==> MarkUndone(s, s'))
        && (MarkUndone(s, s') <==> BackTurn(c, s).None? || !BackTurn(c, s).value.fault)
        && c.id in s'.operations
        && (InTrash(s'.operations, c.id) <==> MarkUndone(s, s'))
        && (Restorable(Reconciled(s'.operations[c.id])) <==> MarkUndone(s, s'))
  {
    AttemptEnds(c, s);
    UndoneByTurn(c, s);
    var (s', result) := Attempt(c, s);
    hide Attempt, Allowed, Restores, BackTurn;
    if s'.moves == s.moves {
      var row := s.operations[c.id];
      assert Refused(c, s, s');
      if s'.writes == s.writes {
        assert s'.writes[|s.writes|..] == [];
      } else if s'.writes == s.writes + [Write(Restoring, false)] {
        assert s'.writes[|s.writes|..] == [Write(Restoring, false)];
      } else {
        var back: bool :| s'.writes == s.writes + [Write(Restoring, true)] + [Write(Ended(Trashed), back)]
          && s'.operations == Marking(s.operations, c.id, if back then Ended(Trashed) else Restoring);
        assert s'.writes[|s.writes|..] == [Write(Restoring, true), Write(Ended(Trashed), back)];
        assert row.(state := Ended(Trashed)) == row;
        assert s.operations[c.id := row] == s.operations;
      }
    }
  }

  const CALM: Turn := Spec.QUIET
  const CANCELLED: Turn := Spec.Turn(None, true, false)
  const FAULTY: Turn := Spec.Turn(None, false, true)

  /** A cancellation before the move, and a database that does not take the mark back. */
  const UNLUCKY: seq<Turn> := [CALM, CALM, CALM, CALM, CALM, CALM, CALM, CALM, CALM, CANCELLED, FAULTY]

  /** After `n` of these turns. */
  function At(s: State, n: nat): State
    requires n <= |UNLUCKY|
  {
    s.(turns := UNLUCKY[n..])
  }

  lemma TickUnlucky(c: Ctx, s: State, n: nat)
    requires n < |UNLUCKY|
    ensures Tick(c, At(s, n)) == (At(s, n + 1), UNLUCKY[n])
    ensures UNLUCKY[n] == if n < 9 then CALM else if n == 9 then CANCELLED else FAULTY
  {
    assert UNLUCKY[n..][1..] == UNLUCKY[n + 1..];
  }

  lemma InspectUnlucky(c: Ctx, s: State, row: OpRow)
    requires Restores(c, row) && Waiting(s.fs, row)
    ensures Inspect(c, At(s, 4), row) == (At(s, 8), Some(Seen(s.fs, row)))
  {
    TickUnlucky(c, s, 4);
    TickUnlucky(c, s, 5);
    TickUnlucky(c, s, 6);
    TickUnlucky(c, s, 7);
    assert At(s, 6).fs == s.fs;
    hide Tick, At, Run.Contents, Waiting;
  }

  lemma CheckUnlucky(c: Ctx, s: State, row: OpRow)
    requires Restores(c, row) && Waiting(s.fs, row)
    ensures Check(c, At(s, 1), row) == (At(s, 8), Some(Seen(s.fs, row)))
  {
    TickUnlucky(c, s, 1);
    TickUnlucky(c, s, 2);
    TickUnlucky(c, s, 3);
    InspectUnlucky(c, s, row);
    hide Tick, At, Inspect, Run.Contents, Waiting;
  }

  lemma CarryUnlucky(c: Ctx, s: State, row: OpRow, observed: Identity)
    requires c.id in s.operations && s.operations[c.id] == row && row.receipt.trash.Some?
    ensures var (s', result) := Carry(c, At(s, 8), row, observed);
      && result.Err? && s'.fs == s.fs && s'.moves == s.moves
      && s'.operations == Marking(s.operations, c.id, Restoring)
  {
    TickUnlucky(c, s, 8);
    var marked := Stored(c, At(s, 9), row.(state := Restoring), false);
    assert marked == At(marked, 9);
    TickUnlucky(c, marked, 9);
    TickUnlucky(c, marked, 10);
    hide Tick;
  }

  /**
   * Every restorable item can be refused and then be lost to restoring: the
   * refusal leaves `restoring`, and a restart takes that for an interruption.
   */
  lemma MarkLeftBehind(c: Ctx, s: State)
    requires InTrash(s.operations, c.id) && Restores(c, s.operations[c.id]) && Waiting(s.fs, s.operations[c.id])
    requires s.turns == UNLUCKY
    ensures var (s', result) := Attempt(c, s);
      && result.Err? && s'.fs == s.fs && s'.moves == s.moves
      && s'.operations == Marking(s.operations, c.id, Restoring)
      && Restorable(s'.operations[c.id]) && !Restorable(Reconciled(s'.operations[c.id]))
  {
    var row := s.operations[c.id];
    assert At(s, 0) == s && At(s, 1).operations == s.operations;
    TickUnlucky(c, s, 0);
    CheckUnlucky(c, s, row);
    CarryUnlucky(c, s, row, Seen(s.fs, row));
    hide *;
    AttemptCarries(c, s, At(s, 1), row, At(s, 8), Seen(s.fs, row));
    assert !Restorable(Reconciled(row.(state := Restoring))) by { RestoringIsLost(row); }
    Marked(s.operations, c.id, Restoring);
  }

  lemma AttemptCarries(c: Ctx, s: State, s1: State, row: OpRow, s2: State, observed: Identity)
    requires Tick(c, s) == (s1, CALM) && c.id in s1.operations && s1.operations[c.id] == row
    requires Check(c, s1, row) == (s2, Some(observed)) && row.receipt.trash.Some?
    ensures Attempt(c, s) == Carry(c, s2, row, observed)
  {
    hide Tick, Check, Carry;
  }

  lemma RestoringIsLost(row: OpRow)
    ensures !Restorable(Reconciled(row.(state := Restoring)))
    ensures Restorable(row.(state := Restoring)) == Restorable(row)
  {
  }

  lemma Marked(operations: map<Id, OpRow>, id: Id, state: OpState)
    requires id in operations
    ensures id in Marking(operations, id, state)
    ensures Marking(operations, id, state)[id] == operations[id].(state := state)
  {
  }

  // ---- The run -------------------------------------------------------------------------

  class RestoreRun {
    const store: Store
    const facts: Facts
    const guarded: set<Key>
    var fs: Fs
    var turns: seq<Turn>
    ghost var moves: seq<Spec.Step>
    ghost var writes: seq<Write>

    constructor (store: Store, facts: Facts, guarded: set<Key>, fs: Fs, turns: seq<Turn>)
      ensures this.store == store && this.facts == facts && this.guarded == guarded
      ensures this.fs == fs && this.turns == turns && moves == [] && writes == []
    {
      this.store, this.facts, this.guarded, this.fs, this.turns := store, facts, guarded, fs, turns;
      moves, writes := [], [];
    }

    ghost function S(): State
      reads this, store
    {
      State(fs, turns, store.operations, moves, writes)
    }

    function Context(id: Id): Ctx
      reads store`parents
    {
      Ctx(id, facts, if id in store.parents then Some(store.parents[id]) else None, guarded)
    }

    /** Other processes run until the next call. */
    method Wait(ghost c: Ctx) returns (t: Turn)
      requires c.guarded == guarded
      modifies this`fs, this`turns
      ensures (S(), t) == Tick(c, old(S()))
    {
      t := Spec.QUIET;
      if turns != [] {
        t := turns[0];
        turns := turns[1..];
        if t.next.Some? && Allowed(guarded, fs, t.next.value) { fs := t.next.value; }
      }
    }

    /** The checks before any change. */
    method Examine(row: OpRow, recorded: Option<seq<(Key, nat)>>, ghost c: Ctx) returns (observed: Option<Identity>)
      requires c.guarded == guarded && c.facts == facts && c.recorded == recorded
      modifies this`fs, this`turns
      ensures (S(), observed) == Check(c, old(S()), row)
    {
      hide Tick, Waiting, Run.Contents;
      observed := None;
      if !Restorable(row) { return; }
      var t := Wait(c);
      if t.fault || !facts.authorized { return; }
      t := Wait(c);
      if t.fault || recorded.None? || recorded.value != facts.ancestors { return; }
      t := Wait(c);
      if t.fault || row.receipt.trash.None? { return; }
      t := Wait(c);
      if t.fault { return; }
      t := Wait(c);
      if t.fault || !Waiting(fs, row) { return; }
      var found := Seen(fs, row);
      t := Wait(c);
      if t.cancelled || facts.measured.None? || Run.Contents(facts.measured.value) != row.candidate.contents { return; }
      t := Wait(c);
      if t.cancelled { return; }
      observed := Some(found);
    }

    /** The move back, after one more look at the item. */
    method MoveBack(place: Place, dest: Place, observed: Identity, ghost c: Ctx) returns (ok: bool)
      requires c.guarded == guarded
      modifies this`fs, this`turns, this`moves
      ensures (S(), ok) == Move(c, old(S()), place, dest, observed)
    {
      hide Tick, CanReturn, Returned, Run.Holding;
      ok := false;
      var t := Wait(c);
      if t.cancelled { return; }
      t := Wait(c);
      if t.fault || !Run.Holding(fs, place, observed) { return; }
      t := Wait(c);
      if t.fault || !CanReturn(fs, place, dest) { return; }
      var next := Returned(fs, place, dest);
      moves := moves + [Spec.Step(true, fs, next)];
      fs := next;
      ok := true;
    }

    /** `UPDATE operations SET state`. */
    method Note(id: Id, state: OpState, ghost c: Ctx) returns (ok: bool)
      requires store.Valid() && id in store.operations && c.guarded == guarded && c.id == id
      modifies this`fs, this`turns, this`writes, store`operations
      ensures store.Valid() && (S(), ok) == Mark(c, old(S()), old(store.operations)[id], state)
      ensures store.operations == if ok then Marking(old(store.operations), id, state) else old(store.operations)
    {
      hide Tick;
      var t := Wait(c);
      ok := store.Mark(id, state, t.fault);
      writes := writes + [Write(state, ok)];
    }

    /** `restore`. */
    method Restore(id: Id) returns (result: Run.Result)
      requires store.Valid()
      modifies this`fs, this`turns, this`moves, this`writes, store`operations
      ensures store.Valid() && (S(), result) == Attempt(Context(id), old(S()))
    {
      hide Tick, Check, Mark, Move, Paired, Balanced, OneOpen;
      ghost var c := Context(id);
      result := Run.Err;
      var t := Wait(c);
      if t.fault || id !in store.operations { return; }
      var row := store.operations[id];
      var observed := Examine(row, if id in store.parents then Some(store.parents[id]) else None, c);
      if observed.None? || row.receipt.trash.None? { return; }
      var marked := Note(id, Restoring, c);
      if !marked { return; }
      var moved := MoveBack(row.receipt.trash.value, row.candidate.place, observed.value, c);
      if !moved {
        MarkedTwice(c, S(), row, Restoring, Ended(Trashed));
        var _ := Note(id, Ended(Trashed), c);
        return;
      }
      var receipt := row.receipt.(outcome := Restored, canRestore := false);
      t := Wait(c);
      var filed := store.FinishOperation(receipt, None, t.fault);
      writes := writes + [Write(Ended(Restored), filed)];
      if filed { result := Run.Ok(receipt); }
    }
  }

  // ---- Trash, then restore -----------------------------------------------------------------

  lemma NamesAreBack(guarded: set<Key>, o: Run.Origin, place: Place, dest: Place, step: Spec.Step, before: Fs,
                     after: Fs, k: Key)
    requires dest == Place(o.parent, o.name) && o.parent in guarded && place.dir != o.parent
    requires o.name in o.Names() && o.Names()[o.name] == k && Run.NamesIn(before, o.parent) == o.Names() - {o.name}
    requires BackStep(step, place, dest) && MovesObject(step, place, k)
    requires Allowed(guarded, before, step.before) && Allowed(guarded, step.after, after)
    ensures Run.NamesIn(after, o.parent) == o.Names()
  {
    assert (o.Names() - {o.name})[o.name := k] == o.Names();
  }

  /** What an undisturbed Trash and restore need beside the conditions for Trash. */
  predicate Undoable(r: Run.Request, a: Run.Answers, facts: Facts) {
    && facts.authorized && facts.ancestors == a.ancestors
    && facts.measured.Some? && Run.Contents(facts.measured.value) == r.candidate.contents
    && a.trash.Some? && CanReturn(a.trash.value.next, a.trash.value.place, r.candidate.place)
  }

  /** A finished Trash, as the tables have it. */
  predicate LeftInTrash(operations: map<Id, OpRow>, recorded: Option<seq<(Key, nat)>>, r: Run.Request, a: Run.Answers,
                        id: Id, receipt: Receipt) {
    && InTrash(operations, id) && operations[id].candidate == r.candidate && operations[id].receipt == receipt
    && receipt.trash.Some? && receipt.credited == 0 && receipt.coins == 0
    && operations[id].trashIdentity.Some? && SameObject(operations[id].trashIdentity.value, r.candidate.identity)
    && recorded == Some(a.ancestors)
  }

  /** Nothing happened since native Trash answered. */
  predicate AsAnswered(fs: Fs, a: Run.Answers, row: OpRow) {
    && a.trash.Some? && fs == a.trash.value.next && row.receipt.trash == Some(a.trash.value.place)
    && row.trashIdentity.Some? && Run.Holding(fs, a.trash.value.place, row.trashIdentity.value)
  }

  /** The item's name, and nothing else, has gone from a directory left alone. */
  predicate Vacated(guarded: set<Key>, o: Run.Origin, k: Key, fs: Fs) {
    o.parent in guarded ==>
      o.name in o.Names() && o.Names()[o.name] == k && Run.NamesIn(fs, o.parent) == o.Names() - {o.name}
  }

  /** What native Trash left and `execute` stored is ready exactly if the rest is. */
  lemma ReadyAfterTrash(c: Ctx, fs: Fs, operations: map<Id, OpRow>, r: Run.Request, a: Run.Answers, receipt: Receipt)
    requires LeftInTrash(operations, c.recorded, r, a, c.id, receipt) && AsAnswered(fs, a, operations[c.id])
    ensures Ready(c, fs, operations[c.id]) <==> Undoable(r, a, c.facts)
  {
    hide CanReturn, Run.Contents;
  }

  /** With a quiet restore, the move is all that happened. */
  lemma JustMoved(c: Ctx, s: State, s': State, place: Place, dest: Place, k: Key)
    requires Moved(c, s, s', place, dest, k) && s.turns == []
    ensures CanReturn(s.fs, place, dest) && s'.fs == Returned(s.fs, place, dest)
  {
    hide CanReturn, Returned, Allowed, MovesObject;
  }

  /** A restore of a finished Trash: what it moves, what it stores, and when it succeeds. */
  lemma Undoing(c: Ctx, s: State, r: Run.Request, a: Run.Answers, receipt: Receipt)
    requires LeftInTrash(s.operations, c.recorded, r, a, c.id, receipt)
    ensures var (s', result) := Attempt(c, s);
      && (result.Ok? ==>
            && Moved(c, s, s', receipt.trash.value, r.candidate.place, r.candidate.identity.Object())
            && result.receipt == receipt.(outcome := Restored, canRestore := false)
            && c.id in s'.operations && !Restorable(s'.operations[c.id]))
      && (s.turns == [] && AsAnswered(s.fs, a, s.operations[c.id]) ==>
            && (result.Ok? <==> Undoable(r, a, c.facts))
            && (result.Ok? ==> s'.fs == Returned(a.trash.value.next, a.trash.value.place, r.candidate.place)))
  {
    AttemptEnds(c, s);
    if AsAnswered(s.fs, a, s.operations[c.id]) { ReadyAfterTrash(c, s.fs, s.operations, r, a, receipt); }
    var (s', result) := Attempt(c, s);
    if result.Ok? {
      CarriedRow(c, s, s');
      if s.turns == [] { JustMoved(c, s, s', receipt.trash.value, r.candidate.place, r.candidate.identity.Object()); }
    }
    hide Attempt, Moved, Ready, Restores, Run.Contents, CanReturn;
  }

  /** What is not restorable is refused. */
  lemma OnlyOnce(c: Ctx, s: State)
    requires c.id in s.operations && !Restorable(s.operations[c.id])
    ensures Attempt(c, s).1.Err?
  {
    AttemptEnds(c, s);
    hide Attempt, Moved;
  }

  /** The two directories have their original names again, as far as other processes leave them alone. */
  predicate NamesReturn(c: Spec.Ctx, o: Run.Origin, j: Run.Job, trash: Key, before: Fs, after: Fs) {
    trash != o.parent ==>
      && (o.parent in c.guarded ==> Run.NamesIn(after, o.parent) == Run.NamesIn(before, o.parent))
      && (trash in c.guarded - {j.recovery} ==> Run.NamesIn(after, trash) == Run.NamesIn(before, trash))
  }

  /** Whatever native Trash does within its bounds, moving the item back undoes it in both directories. */
  lemma TrashReturns(c: Spec.Ctx, o: Run.Origin, r: Run.Request, a: Run.Answers, j: Run.Job, fs: Fs, facts: Facts,
                     last: Fs)
    requires o == Run.Origin(fs, r.candidate.place.dir, r.candidate.place.name) && Run.Trashes(c, o, r, a, j, fs)
    requires Undoable(r, a, facts)
    requires last == Returned(a.trash.value.next, a.trash.value.place, r.candidate.place)
    ensures NamesReturn(c, o, j, a.trash.value.place.dir, fs, last)
  {
    hide Run.StagedAsReviewed, Run.Contents, Allowed;
    var reply, home, name := a.trash.value, o.parent, o.name;
    var staged := Run.StagedFs(r, j, fs);
    var k := fs.dirs[home][name];
    assert staged.dirs[home] == (fs.dirs[home] - {name})[j.stage := k];
    assert k == r.candidate.identity.Object() == reply.next.dirs[reply.place.dir][reply.place.name];
    if reply.place.dir != home {
      if home in c.guarded {
        assert reply.next.dirs[home] == fs.dirs[home] - {name};
        assert last.dirs[home] == (fs.dirs[home] - {name})[name := k] == fs.dirs[home];
      }
      if reply.place.dir in c.guarded - {j.recovery} {
        assert Run.NamesIn(last, reply.place.dir) == Run.NamesIn(reply.next, reply.place.dir) - {reply.place.name};
      }
    }
  }

  /** A Trash that moves the staged item under a free name of another directory is taken, and can be undone. */
  lemma RenamedTrashWorks(c: Spec.Ctx, o: Run.Origin, r: Run.Request, a: Run.Answers, j: Run.Job, fs: Fs, place: Place)
    requires Run.Sited(c, o, j) && o == Run.Origin(fs, r.candidate.place.dir, r.candidate.place.name)
    requires r.operation == Trash && r.keeper.None? && Run.Stages(r, a, j, fs)
    requires var staged := Run.StagedFs(r, j, fs);
      && place.dir !in {o.parent, j.recovery} && CanRename(staged, o.parent, j.stage, place.dir, place.name)
      && a.trash == Some(Run.TrashReply(true, place, Rename(staged, o.parent, j.stage, place.dir, place.name)))
    ensures Run.Trashes(c, o, r, a, j, fs) && CanReturn(a.trash.value.next, place, r.candidate.place)
  {
    Run.RenamingIsTrash(c, o, j, Run.StagedFs(r, j, fs), place);
    hide Run.StagedAsReviewed, Run.TrashMay, Run.Sited;
  }

  /** The first half. */
  method TrashFirst(store: Store, request: Run.Request, answers: Run.Answers, job: Run.Job, guarded: set<Key>,
                    fs: Fs, turns: seq<Turn>, listings: seq<seq<Name>>)
    returns (first: Run.Result, after: Fs)
    requires store.Valid() && request.operation == Trash
    requires job.recovery in guarded && job.recovery !in fs.dirs && request.candidate.place.dir != job.recovery
    requires forall p :: p in Run.RowsOf(answers) ==>
      Run.RowsOf(answers)[p].Object() !in {job.recovery, request.candidate.place.dir}
    modifies store
    ensures store.Valid()
    ensures first.Ok? && first.receipt.outcome == Trashed ==>
      && LeftInTrash(store.operations, if job.id in store.parents then Some(store.parents[job.id]) else None,
                     request, answers, job.id, first.receipt)
      && Vacated(guarded, Run.Origin(fs, request.candidate.place.dir, request.candidate.place.name),
                 request.candidate.identity.Object(), after)
    ensures
      var opens := Run.Opens(request, fs, job.id in old(store.operations));
      var commits := Run.Commits(request, answers, fs, job.id in old(store.manifest) || job.id in old(store.parents));
      var origin := Run.Origin(fs, request.candidate.place.dir, request.candidate.place.name);
      turns == [] && Run.Measurable(request, answers) ==>
        && (first.Ok? && first.receipt.outcome == Trashed <==>
              opens && commits && Run.Trashes(Run.ContextOf(answers, job, guarded), origin, request, answers, job, fs))
        && (first.Ok? && first.receipt.outcome == Trashed ==> AsAnswered(after, answers, store.operations[job.id]))
  {
    hide Run.Kept, Run.Sited, Run.Contents, Run.Rows, Run.Justified, Run.StagedAsReviewed, Run.Holding;
    hide Run.Trashes, Run.Measurable, Run.Opens, Run.Commits, Run.Removes, Run.Placed, Run.WriteAhead, Run.Careful;
    var run := new Run.CleanupRun(store, request, answers, job, guarded, fs, turns, listings);
    first := run.Execute();
    after := run.fs;
    Run.KeptNames(run.Context(), run.origin, job, run.descriptor, run.phase, run.fs, run.RowsNow(), run.events,
                  run.log);
    if first.Ok? && first.receipt.outcome == Trashed {
      AwayIsVacated(run.Context(), run.origin, job, run.fs, request.candidate.identity.Object());
    }
  }

  lemma AwayIsVacated(c: Spec.Ctx, o: Run.Origin, j: Run.Job, fs: Fs, k: Key)
    requires Run.Placed(c, o, j, Run.Phase(Run.Away, false, false), fs)
    requires o.parent in c.guarded ==> o.name in o.Names() && o.Names()[o.name] == k
    ensures Vacated(c.guarded, o, k, fs)
  {
  }

  /** The second half, and one more restore after it. */
  method RestoreTwice(store: Store, request: Run.Request, answers: Run.Answers, id: Id, guarded: set<Key>, fs: Fs,
                      facts: Facts, turns: seq<Turn>, receipt: Receipt, ghost home: Run.Origin)
    returns (second: Run.Result, third: Run.Result, last: Fs)
    requires store.Valid() && home.parent == request.candidate.place.dir && home.name == request.candidate.place.name
    requires LeftInTrash(store.operations, if id in store.parents then Some(store.parents[id]) else None, request,
                         answers, id, receipt)
    modifies store
    ensures second.Ok? ==> second.receipt == receipt.(outcome := Restored, canRestore := false) && third.Err?
    ensures
      var trash := receipt.trash.value.dir;
      var vacated := Vacated(guarded, home, request.candidate.identity.Object(), fs);
      second.Ok? && vacated && {home.parent, trash} <= guarded && home.parent != trash ==>
        Run.NamesIn(last, home.parent) == home.Names()
    ensures turns == [] && AsAnswered(fs, answers, old(store.operations)[id]) ==>
      && (second.Ok? <==> Undoable(request, answers, facts))
      && (second.Ok? ==> last == Returned(answers.trash.value.next, answers.trash.value.place, request.candidate.place))
  {
    hide Run.Contents, Allowed, BackStep, MovesObject, Returned, CanReturn, Attempt, Moved, Vacated;
    hide Undoable, Run.Holding, AsAnswered, Paired, Balanced, OneOpen, Tick;
    third := Run.Err;
    var back := new RestoreRun(store, facts, guarded, fs, turns);
    ghost var c, s := back.Context(id), back.S();
    Undoing(c, s, request, answers, receipt);
    second := back.Restore(id);
    last := back.fs;
    if second.Err? { return; }
    ghost var place, k := receipt.trash.value, request.candidate.identity.Object();
    if Vacated(guarded, home, k, fs) && {home.parent, place.dir} <= guarded && home.parent != place.dir {
      BackAtHome(c, s, back.S(), home, place, k);
    }
    var again := new RestoreRun(store, facts, guarded, last, []);
    OnlyOnce(again.Context(id), again.S());
    third := again.Restore(id);
  }

  /**
   * Trash, then restore.  With the two directories left alone by others, the
   * same object is back under its name among exactly the original names, and
   * the operation has earned nothing and can never be restored again.  With
   * nobody interfering the item is back exactly if Trash takes it and its
   * place and the authorization are still there, and both directories have
   * their original names.
   */
  method TrashThenRestore(store: Store, request: Run.Request, answers: Run.Answers, job: Run.Job, guarded: set<Key>,
                          fs: Fs, turns: seq<Turn>, listings: seq<seq<Name>>, facts: Facts, later: seq<Turn>)
    returns (first: Run.Result, second: Run.Result, third: Run.Result, last: Fs)
    requires store.Valid() && request.operation == Trash
    requires job.recovery in guarded && job.recovery !in fs.dirs && request.candidate.place.dir != job.recovery
    requires forall p :: p in Run.RowsOf(answers) ==>
      Run.RowsOf(answers)[p].Object() !in {job.recovery, request.candidate.place.dir}
    modifies store
    ensures second.Ok? ==> first.Ok? && first.receipt.outcome == Trashed && first.receipt.trash.Some?
    ensures second.Ok? ==> second.receipt == first.receipt.(outcome := Restored, canRestore := false)
    ensures second.Ok? ==> second.receipt.credited == 0 && second.receipt.coins == 0
    ensures
      var home := request.candidate.place.dir;
      second.Ok? && {home, first.receipt.trash.value.dir} <= guarded && home != first.receipt.trash.value.dir ==>
        Run.NamesIn(last, home) == Run.NamesIn(fs, home)
    ensures second.Ok? ==> third.Err?
    ensures
      var c := Run.ContextOf(answers, job, guarded);
      var origin := Run.Origin(fs, request.candidate.place.dir, request.candidate.place.name);
      var opens := Run.Opens(request, fs, job.id in old(store.operations));
      var commits := Run.Commits(request, answers, fs, job.id in old(store.manifest) || job.id in old(store.parents));
      turns == [] && later == [] && Run.Measurable(request, answers) ==>
        && (second.Ok? <==>
              && opens && commits && Run.Trashes(c, origin, request, answers, job, fs)
              && Undoable(request, answers, facts))
        && (second.Ok? ==>
              && last == Returned(answers.trash.value.next, answers.trash.value.place, request.candidate.place)
              && NamesReturn(c, origin, job, answers.trash.value.place.dir, fs, last))
  {
    hide Run.Contents, Run.Rows, Returned, CanReturn, Vacated, Run.Trashes, Run.Measurable, Run.Opens, Run.Commits;
    hide Undoable, Run.Holding, AsAnswered, Paired, Balanced, OneOpen, NamesReturn;
    ghost var home := Run.Origin(fs, request.candidate.place.dir, request.candidate.place.name);
    second, third := Run.Err, Run.Err;
    first, last := TrashFirst(store, request, answers, job, guarded, fs, turns, listings);
    if first.Err? || first.receipt.outcome != Trashed { return; }
    second, third, last :=
      RestoreTwice(store, request, answers, job.id, guarded, last, facts, later, first.receipt, home);
    if second.Ok? && turns == [] && later == [] && Run.Measurable(request, answers) {
      TrashReturns(Run.ContextOf(answers, job, guarded), home, request, answers, job, fs, facts, last);
    }
  }

  lemma BackAtHome(c: Ctx, s: State, s': State, o: Run.Origin, place: Place, k: Key)
    requires {o.parent, place.dir} <= c.guarded && o.parent != place.dir && Vacated(c.guarded, o, k, s.fs)
    requires Moved(c, s, s', place, Place(o.parent, o.name), k)
    ensures Run.NamesIn(s'.fs, o.parent) == o.Names()
  {
    hide BackStep, MovesObject, Allowed;
    NamesAreBack(c.guarded, o, place, Place(o.parent, o.name), s'.moves[|s.moves|], s.fs, s'.fs, k);
  }

  // ---- With both directories left alone -----------------------------------------------------

  const HOME: Key := Key(1, 2)
  const BIN: Key := Key(1, 3)
  const FILE: Key := Key(1, 4)
  const FRESH: Key := Key(1, 5)

  /** A directory, or a file, of user 501. */
  function Of(mode: nat, changed: int): Inode { Inode(mode, 5, 0, changed, 4096, 1, 501, 0, Unsupported, None) }

  function Disk(): Fs {
    Fs(map[HOME := Of(0x41C0, 0), BIN := Of(0x41C0, 0), FILE := Of(0x81A4, 0)],
       map[HOME := map["a" := FILE], BIN := map[]], 7)
  }

  function OneFile(changed: int): Run.Measured { [([], MetaOf(FILE, Of(0x81A4, changed)))] }

  function TrashFile(): Run.Request {
    var candidate := Candidate(Place(HOME, "a"), MetaOf(FILE, Of(0x81A4, 0)).identity, Run.Contents(OneFile(0)), 4096);
    Run.Request(Trash, candidate, 1, false, false, true, true, None)
  }

  function NewJob(): Run.Job { Run.Job(1, "op", "stage", "recovery", FRESH, Of(0x41C0, 0), 501) }

  lemma DiskStages()
    ensures var (r, j, fs) := (TrashFile(), NewJob(), Disk());
      && Run.SeesItem(r, fs) && Run.CanStage(r, j, fs) && Run.SeesObject(r, j, Run.StagedFs(r, j, fs))
      && CanRename(Run.StagedFs(r, j, fs), HOME, j.stage, BIN, "a")
  {
    hide Run.Contents;
  }

  function Answered(): Run.Answers {
    DiskStages();
    var (r, j, fs) := (TrashFile(), NewJob(), Disk());
    var reply := Run.TrashReply(true, Place(BIN, "a"), Rename(Run.StagedFs(r, j, fs), HOME, j.stage, BIN, "a"));
    Run.Answers(Some(OneFile(0)), [], Some(OneFile(7)), Some(reply), 0, "", None, None)
  }

  lemma OneFileMeasured(changed: int)
    ensures Run.Contents(OneFile(changed)) == Run.Contents(OneFile(0)) && Run.DistinctPaths(OneFile(changed))
    ensures Closure.Closed(Run.Metas(OneFile(changed))) && Closure.Consistent(Run.Metas(OneFile(changed)))
    ensures Closure.Objects(Run.Metas(OneFile(changed))) == {}
    ensures Run.Rows(OneFile(changed)) == map[[] := MetaOf(FILE, Of(0x81A4, changed)).identity]
  {
    var m, n := OneFile(changed), OneFile(0);
    assert seq(|m|, i requires 0 <= i < |m| => (m[i].0, Run.Digested(m[i].0, m[i].1)))
        == seq(|n|, i requires 0 <= i < |n| => (n[i].0, Run.Digested(n[i].0, n[i].1)));
    assert Run.Metas(m) == [m[0].1];
    assert m[..0] == [];
  }

  /** The first claim is about real runs: with both directories left alone, a file is trashed and comes back. */
  lemma BothLeftAlone()
    ensures var (r, a, j, fs) := (TrashFile(), Answered(), NewJob(), Disk());
      var guarded := {HOME, BIN, FRESH};
      var origin := Run.Origin(fs, HOME, "a");
      && j.recovery !in fs.dirs && {HOME, a.trash.value.place.dir} <= guarded && a.trash.value.place.dir != HOME
      && (forall p :: p in Run.RowsOf(a) ==> Run.RowsOf(a)[p].Object() !in {j.recovery, HOME})
      && Run.Opens(r, fs, false) && Run.Commits(r, a, fs, false) && Run.Measurable(r, a)
      && Run.Trashes(Run.ContextOf(a, j, guarded), origin, r, a, j, fs)
      && Undoable(r, a, Facts(true, [], Some(OneFile(7))))
  {
    var (r, a, j, fs) := (TrashFile(), Answered(), NewJob(), Disk());
    var c, o := Run.ContextOf(a, j, {HOME, BIN, FRESH}), Run.Origin(fs, HOME, "a");
    DiskStages();
    OneFileMeasured(0);
    OneFileMeasured(7);
    hide Run.Contents, Run.DistinctPaths, Closure.Closed, Closure.Consistent, Closure.Objects, Run.Metas, Run.Rows;
    hide Run.SeesItem, Run.SeesObject, Run.CanStage;
    assert Run.Sited(c, o, j) by {
      forall k | Run.Safety.Reviewed(c, k) ensures k == FILE {
        var p :| p in c.manifest && c.manifest[p].Object() == k;
      }
    }
    RenamedTrashWorks(c, o, r, a, j, fs, Place(BIN, "a"));
    hide Run.Trashes, CanReturn, Run.Sited, Run.StagedFs, Rename;
  }
}
