/** One cleanup operation from review to receipt: manifest, staging, Trash or removal, accounting. */
module Execute {
  import opened Prelude
  import opened Metadata
  import opened FileSystem
  import opened Accounting
  import opened Store
  import Spec = Removal
  import Safety = RemovalSafety
  import Runs = RemovalRuns
  import Places = RemovalPlaces
  import Theorems = RemovalTheorems
  import Quiet = RemovalQuiet
  import Closure = LinkClosure
  import Engine = RemovalEngine
  import Directory = RecoveryDirectory
  import Exact = ExactComparison
  import Grouping
  import Cancel = RemovalCancel

  type Turn = Spec.Turn

  /** A measurement: every entry with its path relative to the item, in traversal order. */
  type Measured = seq<(Path, EntryMeta)>

  /**
   * A duplicate's staged copy and the file that is kept, how checkpoints and
   * reads go while they are compared, and how the kept one behaves when it is
   * validated once more just before the Trash.
   */
  datatype Keeper = Keeper(
    copy: Grouping.Item, retained: Grouping.Item, signals: seq<Exact.Signal>, pieces: seq<nat>, last: Grouping.Health)

  /** What is asked for, with what policy and scope say about it. */
  datatype Request = Request(
    operation: Operation, candidate: Candidate, rootDevice: nat,
    eligible: bool, blocked: bool, inScope: bool, suggested: bool,
    keeper: Option<Keeper>)

  /** What native Trash answers, and the file system it leaves. */
  datatype TrashReply = TrashReply(ok: bool, place: Place, next: Fs)

  /** What the parts outside this model answer during the operation. */
  datatype Answers = Answers(
    reviewed: Option<Measured>,    // the measurement of the full revalidation, if every other check of it passes
    ancestors: seq<(Key, nat)>,
    staged: Option<Measured>,      // the measurement of the staged item, if it is complete and safe
    trash: Option<TrashReply>,
    window: Id, domain: string,
    before: Option<Samples>, after: Option<Samples>)

  /** Names and keys fixed for the operation; the kernel chooses `recovery` when the directory is made. */
  datatype Job = Job(id: Id, operation: string, stage: Name, recoveryName: Name, recovery: Key, made: Inode, euid: nat)

  datatype Result = Err | Ok(receipt: Receipt)

  predicate Authorized(r: Request) {
    && (r.keeper.Some? ==> r.operation == Trash)
    && (r.operation == Permanent ==> r.eligible)
    && !r.blocked && r.inScope && r.suggested
  }

  /** What is never done: inspection-only, out-of-scope and unsuggested items, and what may only go to the Trash. */
  predicate Forbidden(r: Request) {
    r.blocked || !r.inScope || !r.suggested || (r.operation != Trash && (r.keeper != None || !r.eligible))
  }

  // ---- Measurements and rows --------------------------------------------

  /** A fingerprint does not see the root's change time. */
  function Digested(p: Path, e: EntryMeta): EntryMeta {
    if p == [] then e.(identity := e.identity.(changed := 0)) else e
  }

  /** What a fingerprint digests: every entry, in no order. */
  function Contents(m: Measured): multiset<(Path, EntryMeta)> {
    multiset(seq(|m|, i requires 0 <= i < |m| => (m[i].0, Digested(m[i].0, m[i].1))))
  }

  function Metas(m: Measured): seq<EntryMeta> { seq(|m|, i requires 0 <= i < |m| => m[i].1) }

  predicate DistinctPaths(m: Measured) { forall i, j :: 0 <= i < j < |m| ==> m[i].0 != m[j].0 }

  /** The manifest rows inserted while a measurement streams by. */
  function Rows(m: Measured): map<Path, Identity> {
    if m == [] then map[] else Rows(m[..|m| - 1])[m[|m| - 1].0 := m[|m| - 1].1.identity]
  }

  lemma {:induction false} RowOf(m: Measured, i: nat)
    requires DistinctPaths(m) && i < |m|
    ensures m[i].0 in Rows(m) && Rows(m)[m[i].0] == m[i].1.identity
  {
    if i < |m| - 1 { RowOf(m[..|m| - 1], i); }
  }

  /** The rows the manifest transaction commits. */
  function RowsOf(a: Answers): map<Path, Identity> {
    if a.reviewed.Some? then Rows(a.reviewed.value) else map[]
  }

  /** What stays fixed while the item is removed. */
  function ContextOf(a: Answers, j: Job, guarded: set<Key>): Spec.Ctx {
    Spec.Ctx(j.operation, RowsOf(a), j.recovery, guarded, j.euid)
  }

  /**
   * If the staged item has the reviewed fingerprint, every entry measured has its
   * row, exact but for the root's change time.
   */
  lemma StagedHasRows(reviewed: Measured, staged: Measured, i: nat)
    requires DistinctPaths(reviewed) && Contents(staged) == Contents(reviewed) && i < |staged|
    ensures var (p, e) := staged[i];
      && p in Rows(reviewed)
      && SameAfterRename(Rows(reviewed)[p], e.identity)
      && (p != [] ==> Rows(reviewed)[p] == e.identity)
  {
    var (p, e) := staged[i];
    var digests := seq(|staged|, i requires 0 <= i < |staged| => (staged[i].0, Digested(staged[i].0, staged[i].1)));
    var others :=
      seq(|reviewed|, i requires 0 <= i < |reviewed| => (reviewed[i].0, Digested(reviewed[i].0, reviewed[i].1)));
    assert digests[i] in multiset(digests);
    assert digests[i] in others;
    var j :| 0 <= j < |others| && others[j] == digests[i];
    RowOf(reviewed, j);
  }

  // ---- What holds at every moment ---------------------------------------

  /** One moment of the operation: a change of the file system or of the rows, and the rows as committed then. */
  datatype Event = Event(step: Spec.Step, rows: Option<map<Path, Identity>>)

  /** Where the operation started: the item's directory, and that directory's names. */
  datatype Origin = Origin(fs: Fs, parent: Key, name: Name) {
    function Names(): map<Name, Key> { NamesIn(fs, parent) }
  }

  datatype Where = Original | Staged | Away

  /** The item's place, whether the recovery directory exists, and whether the engine changed nothing yet. */
  datatype Phase = Phase(item: Where, recovery: bool, idle: bool)

  function NamesIn(fs: Fs, dir: Key): map<Name, Key> {
    if dir in fs.dirs then fs.dirs[dir] else map[]
  }

  /** The names of the item's directory without the recovery directory. */
  function Base(o: Origin, j: Job, item: Where): map<Name, Key> {
    match item
    case Original => o.Names()
    case Staged => if o.name in o.Names() then (o.Names() - {o.name})[j.stage := o.Names()[o.name]] else map[]
    case Away => o.Names() - {o.name}
  }

  function Expected(o: Origin, j: Job, p: Phase): map<Name, Key> {
    if p.recovery then Base(o, j, p.item)[j.recoveryName := j.recovery] else Base(o, j, p.item)
  }

  /**
   * With the item's directory left alone by other processes, its names are the
   * original ones with the item under exactly one name, or under none.
   */
  predicate Placed(c: Spec.Ctx, o: Origin, j: Job, p: Phase, fs: Fs) {
    && (p.item != Original ==> !p.idle)
    && (p.recovery ==> !p.idle)
    && (o.parent in c.guarded ==>
          && NamesIn(fs, o.parent) == Expected(o, j, p)
          && (p.item != Original ==> o.name in o.Names() && j.stage !in o.Names())
          && (p.recovery ==> j.recoveryName !in Base(o, j, p.item)))
  }

  /** The rows are there before what they describe: as long as there is a staged item or a captured leaf. */
  predicate Ahead(c: Spec.Ctx, o: Origin, j: Job, fs: Fs, rows: Option<map<Path, Identity>>) {
    && (NamesIn(fs, j.recovery) != map[] ==>
          rows == Some(c.manifest) && Safety.RecoveryRows(c.(recovery := j.recovery), fs))
    && (o.parent in c.guarded && j.stage !in o.Names() && j.stage in NamesIn(fs, o.parent) ==> rows == Some(c.manifest))
  }

  /** The file system after the first `i` events. */
  function Tip(o: Origin, events: seq<Event>, i: nat): Fs
    requires i <= |events|
  {
    if i == 0 then o.fs else events[i - 1].step.after
  }

  /** The events lead from the origin to `fs` without a gap. */
  predicate Chained(o: Origin, events: seq<Event>, fs: Fs) {
    && fs == Tip(o, events, |events|)
    && forall i :: 0 <= i < |events| ==> events[i].step.before == Tip(o, events, i)
  }

  /** Every change the engine made was a safe one, and an idle engine made none. */
  predicate Careful(c: Spec.Ctx, o: Origin, events: seq<Event>, fs: Fs, idle: bool) {
    && Chained(o, events, fs)
    && (forall i :: 0 <= i < |events| && events[i].step.engine ==>
          !idle && Safety.SafeChange(c, events[i].step.before, events[i].step.after))
  }

  /** At every moment so far, and now, the rows were ahead. */
  predicate WriteAhead(c: Spec.Ctx, o: Origin, j: Job, events: seq<Event>, fs: Fs, rows: Option<map<Path, Identity>>) {
    (forall i :: 0 <= i < |events| ==> Ahead(c, o, j, events[i].step.after, events[i].rows)) && Ahead(c, o, j, fs, rows)
  }

  predicate Sounds(c: Spec.Ctx, log: seq<Spec.Unlinked>) { forall i :: 0 <= i < |log| ==> Safety.Sound(c, log[i]) }

  /** Other processes leave the names in `d` alone, and nobody reviewed it. */
  predicate Sheltered(c: Spec.Ctx, o: Origin, d: Key) {
    d in c.guarded && d != o.parent && !Safety.Reviewed(c, d)
  }

  /**
   * What holds between any two steps of the operation, with `d` open as its
   * recovery directory; until one is open, `d` is the key it will be made with.
   */
  predicate Kept(c: Spec.Ctx, o: Origin, j: Job, d: Key, p: Phase, fs: Fs, rows: Option<map<Path, Identity>>,
                 events: seq<Event>, log: seq<Spec.Unlinked>)
  {
    && Placed(c, o, j, p, fs)
    && (o.parent in c.guarded ==> d == j.recovery)
    && (Sheltered(c, o, d) ==> Careful(c, o, events, fs, p.idle) && Sounds(c, log))
    && (d == j.recovery ==> WriteAhead(c, o, j, events, fs, rows) && (NamesIn(fs, j.recovery) != map[] ==> p.recovery))
  }

  /** The recovery key is new: no reviewed entry and no other party has it; the item is not its own ancestor. */
  predicate Sited(c: Spec.Ctx, o: Origin, j: Job) {
    c.recovery == j.recovery && Sheltered(c, o, j.recovery) && !Safety.Reviewed(c, o.parent)
  }

  lemma ChainGrows(o: Origin, events: seq<Event>, fs: Fs, e: Event)
    requires Chained(o, events, fs) && e.step.before == fs
    ensures Chained(o, events + [e], e.step.after)
  {
    var all := events + [e];
    forall i | 0 <= i <= |events| ensures Tip(o, all, i) == Tip(o, events, i) {
      if i > 0 { assert all[i - 1] == events[i - 1]; }
    }
    forall i | 0 <= i < |all| ensures all[i].step.before == Tip(o, all, i) {
      if i < |events| { assert all[i] == events[i]; }
    }
  }

  /** One more moment. */
  lemma KeptGrows(c: Spec.Ctx, o: Origin, j: Job, d: Key, p: Phase, fs: Fs, rows: Option<map<Path, Identity>>,
                  events: seq<Event>, log: seq<Spec.Unlinked>, e: Event, q: Phase)
    requires Kept(c, o, j, d, p, fs, rows, events, log) && e.step.before == fs
    requires e.step.engine ==> !q.idle && Safety.SafeChange(c, fs, e.step.after)
    requires Placed(c, o, j, q, e.step.after) && (q.idle ==> p.idle)
    requires d == j.recovery ==>
      Ahead(c, o, j, e.step.after, e.rows) && (NamesIn(e.step.after, j.recovery) != map[] ==> q.recovery)
    ensures Kept(c, o, j, d, q, e.step.after, e.rows, events + [e], log)
  {
    hide Placed, Ahead, Safety.SafeChange, Sheltered, Sounds;
    if Careful(c, o, events, fs, p.idle) { ChainGrows(o, events, fs, e); }
    hide Chained;
  }

  /** Other processes cannot break the placement or the write-ahead order. */
  lemma OthersKeep(c: Spec.Ctx, o: Origin, j: Job, d: Key, p: Phase, before: Fs, after: Fs,
                   rows: Option<map<Path, Identity>>,
                   events: seq<Event>, log: seq<Spec.Unlinked>)
    requires Sited(c, o, j) && Allowed(c.guarded, before, after)
    requires Kept(c, o, j, d, p, before, rows, events, log)
    ensures Kept(c, o, j, d, p, after, rows, events + [Event(Spec.Step(false, before, after), rows)], log)
  {
    hide Careful, Sounds;
    assert NamesIn(after, j.recovery) == NamesIn(before, j.recovery);
    assert Placed(c, o, j, p, after);
    assert d == j.recovery ==> Ahead(c, o, j, after, rows);
    hide *;
    assert d == j.recovery ==> (NamesIn(before, j.recovery) != map[] ==> p.recovery) by {
      KeptNames(c, o, j, d, p, before, rows, events, log);
    }
    KeptGrows(c, o, j, d, p, before, rows, events, log, Event(Spec.Step(false, before, after), rows), p);
  }

  lemma KeptNames(c: Spec.Ctx, o: Origin, j: Job, d: Key, p: Phase, fs: Fs, rows: Option<map<Path, Identity>>,
                  events: seq<Event>, log: seq<Spec.Unlinked>)
    requires Kept(c, o, j, d, p, fs, rows, events, log)
    ensures Placed(c, o, j, p, fs)
    ensures o.parent in c.guarded ==> d == j.recovery
    ensures d == j.recovery ==> Ahead(c, o, j, fs, rows) && (NamesIn(fs, j.recovery) != map[] ==> p.recovery)
  {
    hide Placed, Ahead, Careful, Sounds, Sheltered;
  }

  // ---- Removal runs as part of the history --------------------------------

  /** Events made of the steps of a removal run. */
  function Absorbed(trace: seq<Spec.Step>, rows: Option<map<Path, Identity>>): seq<Event> {
    seq(|trace|, i requires 0 <= i < |trace| => Event(trace[i], rows))
  }

  /** `s1`'s trace starts at `s0` and leads to `s1` without a gap. */
  lemma RunSteps(c: Spec.Ctx, s0: Spec.State, s1: Spec.State, i: nat)
    requires s0.trace == [] && Safety.Run(c, s0, s1) && i <= |s1.trace|
    ensures i < |s1.trace| ==> s1.trace[i].before == if i == 0 then s0.fs else s1.trace[i - 1].after
    ensures i == |s1.trace| ==> s1.fs == if i == 0 then s0.fs else s1.trace[i - 1].after
  {
    hide Safety.SafeStep, Safety.RecoveryRows, Safety.Sound, Safety.Regulars;
    assert Safety.Before(s0, s1, i) == if i == 0 then s0.fs else s1.trace[i - 1].after;
  }

  lemma RunIsChained(c: Spec.Ctx, o: Origin, events: seq<Event>, s0: Spec.State, s1: Spec.State)
    requires Chained(o, events, s0.fs) && s0.trace == [] && Safety.Run(c, s0, s1)
    ensures Chained(o, events + Absorbed(s1.trace, Some(c.manifest)), s1.fs)
  {
    hide Safety.Run;
    var n, trace := |events|, s1.trace;
    var all := events + Absorbed(trace, Some(c.manifest));
    forall i | 0 <= i <= |all| ensures Tip(o, all, i) == if i <= n then Tip(o, events, i) else trace[i - n - 1].after {
      if 0 < i { assert all[i - 1].step == if i <= n then events[i - 1].step else trace[i - 1 - n]; }
    }
    forall i | 0 <= i < |all| ensures all[i].step.before == Tip(o, all, i) {
      if i >= n { RunSteps(c, s0, s1, i - n); }
    }
    RunSteps(c, s0, s1, |trace|);
  }

  /** Which changes are safe does not depend on the recovery directory. */
  lemma SafeAnywhere(c: Spec.Ctx, d: Key, before: Fs, after: Fs)
    ensures Safety.SafeChange(c.(recovery := d), before, after) == Safety.SafeChange(c, before, after)
  {
    assert forall k :: Safety.Reviewed(c.(recovery := d), k) == Safety.Reviewed(c, k);
  }

  lemma RunIsCareful(c: Spec.Ctx, d: Key, o: Origin, events: seq<Event>, s0: Spec.State, s1: Spec.State)
    requires Careful(c, o, events, s0.fs, false) && s0.trace == [] && s0.log == []
    requires Safety.Run(c.(recovery := d), s0, s1)
    ensures Careful(c, o, events + Absorbed(s1.trace, Some(c.manifest)), s1.fs, false) && Sounds(c, s1.log)
  {
    hide Safety.SafeChange, Safety.RecoveryRows, Safety.Regulars;
    RunIsChained(c.(recovery := d), o, events, s0, s1);
    hide Chained;
    forall i | 0 <= i < |s1.trace| && s1.trace[i].engine
      ensures Safety.SafeChange(c, s1.trace[i].before, s1.trace[i].after)
    {
      SafeAnywhere(c, d, s1.trace[i].before, s1.trace[i].after);
    }
    forall i | 0 <= i < |s1.log| ensures Safety.Sound(c, s1.log[i]) {
      assert Safety.Sound(c.(recovery := d), s1.log[i]);
    }
  }

  lemma RunIsAhead(c: Spec.Ctx, o: Origin, j: Job, events: seq<Event>, s0: Spec.State, s1: Spec.State)
    requires c.recovery == j.recovery && WriteAhead(c, o, j, events, s0.fs, Some(c.manifest))
    requires s0.trace == [] && Safety.Run(c, s0, s1) && NamesIn(s0.fs, j.recovery) == map[]
    ensures WriteAhead(c, o, j, events + Absorbed(s1.trace, Some(c.manifest)), s1.fs, Some(c.manifest))
  {
    assert Safety.RecoveryRows(c, s0.fs);
    hide Safety.SafeStep, Safety.RecoveryRows, Safety.Sound, Safety.Regulars;
    forall i | 0 <= i <= |s1.trace| ensures Ahead(c, o, j, Safety.Before(s0, s1, i), Some(c.manifest)) {
      assert c.(recovery := j.recovery) == c;
    }
    assert forall i :: 0 <= i < |s1.trace| ==> s1.trace[i].after == Safety.Before(s0, s1, i + 1);
    hide Ahead, Safety.Run;
  }

  // ---- Crash points --------------------------------------------------------

  /** The one row a recovery name stands for. */
  predicate OnlyRow(c: Spec.Ctx, n: Name, p: Path) {
    && p in c.manifest && n == Spec.LeafName(c.operation, p)
    && forall q :: q in c.manifest && n == Spec.LeafName(c.operation, q) ==> q == p
  }

  /**
   * A crash at any moment leaves committed rows for whatever is staged or
   * captured, and a captured leaf's name leads to exactly one of them.
   */
  lemma CrashIsRecoverable(c: Spec.Ctx, o: Origin, j: Job, events: seq<Event>, fs: Fs,
                           rows: Option<map<Path, Identity>>, i: nat, n: Name)
    requires WriteAhead(c, o, j, events, fs, rows) && i < |events|
    requires forall p :: p in c.manifest ==> Theorems.PlainPath(p)
    ensures var e := events[i];
      && (n in NamesIn(e.step.after, j.recovery) ==> e.rows == Some(c.manifest) && exists p :: OnlyRow(c, n, p))
      && (o.parent in c.guarded && j.stage !in o.Names() && j.stage in NamesIn(e.step.after, o.parent) ==>
            e.rows == Some(c.manifest))
  {
    var e := events[i];
    assert Ahead(c, o, j, e.step.after, e.rows);
    if n in NamesIn(e.step.after, j.recovery) {
      assert Safety.HasRow(c.(recovery := j.recovery), n);
      var p :| p in c.manifest && n == Spec.LeafName(c.operation, p);
      forall q | q in c.manifest && n == Spec.LeafName(c.operation, q) ensures q == p {
        Theorems.LeafNameIdentifies(c.operation, p, q);
      }
      assert OnlyRow(c, n, p);
    }
  }

  /** In a directory left alone the item has the original name, or the stage name, or neither; never both. */
  lemma ItemIsInOnePlace(c: Spec.Ctx, o: Origin, j: Job, p: Phase, fs: Fs)
    requires Placed(c, o, j, p, fs) && o.parent in c.guarded && o.name in o.Names() && j.stage !in o.Names()
    requires p.recovery ==> j.recoveryName !in {o.name, j.stage}
    ensures var names := NamesIn(fs, o.parent);
      && (p.item == Original <==> o.name in names) && (p.item == Staged <==> j.stage in names)
      && (p.item == Original ==> names[o.name] == o.Names()[o.name])
      && (p.item == Staged ==> names[j.stage] == o.Names()[o.name])
      && (forall n :: n !in {o.name, j.stage, j.recoveryName} ==>
            (n in names <==> n in o.Names()) && (n in names ==> names[n] == o.Names()[n]))
  {
  }

  // ---- The engine's own moves in the item's directory --------------------

  lemma StagingKeeps(c: Spec.Ctx, o: Origin, j: Job, idle: bool, fs: Fs, events: seq<Event>, log: seq<Spec.Unlinked>)
    requires Sited(c, o, j)
    requires Kept(c, o, j, j.recovery, Phase(Original, false, idle), fs, Some(c.manifest), events, log)
    requires CanRename(fs, o.parent, o.name, o.parent, j.stage)
    ensures var next := Rename(fs, o.parent, o.name, o.parent, j.stage);
      Kept(c, o, j, j.recovery, Phase(Staged, false, false), next, Some(c.manifest),
           events + [Event(Spec.Step(true, fs, next), Some(c.manifest))], log)
  {
    hide Careful, Sounds, Safety.SafeChange;
    var rows, q, next := Some(c.manifest), Phase(Staged, false, false), Rename(fs, o.parent, o.name, o.parent, j.stage);
    Safety.RenameIsSafe(c, fs, o.parent, o.name, o.parent, j.stage);
    KeptNames(c, o, j, j.recovery, Phase(Original, false, idle), fs, rows, events, log);
    assert Placed(c, o, j, q, next) && NamesIn(next, j.recovery) == NamesIn(fs, j.recovery) == map[];
    KeptGrows(c, o, j, j.recovery, Phase(Original, false, idle), fs, rows, events, log,
              Event(Spec.Step(true, fs, next), rows), q);
  }

  lemma PutBackKeeps(c: Spec.Ctx, o: Origin, j: Job, item: Where, fs: Fs, events: seq<Event>, log: seq<Spec.Unlinked>)
    requires Sited(c, o, j) && Kept(c, o, j, j.recovery, Phase(item, false, false), fs, Some(c.manifest), events, log)
    requires item != Original
    requires CanRename(fs, o.parent, j.stage, o.parent, o.name)
    ensures var next := Rename(fs, o.parent, j.stage, o.parent, o.name);
      Kept(c, o, j, j.recovery, Phase(Original, false, false), next, Some(c.manifest),
           events + [Event(Spec.Step(true, fs, next), Some(c.manifest))], log)
  {
    hide Careful, Sounds, Safety.SafeChange;
    var rows, q, next :=
      Some(c.manifest), Phase(Original, false, false), Rename(fs, o.parent, j.stage, o.parent, o.name);
    Safety.RenameIsSafe(c, fs, o.parent, j.stage, o.parent, o.name);
    KeptNames(c, o, j, j.recovery, Phase(item, false, false), fs, rows, events, log);
    assert Placed(c, o, j, q, next) && NamesIn(next, j.recovery) == NamesIn(fs, j.recovery) == map[];
    KeptGrows(c, o, j, j.recovery, Phase(item, false, false), fs, rows, events, log,
              Event(Spec.Step(true, fs, next), rows), q);
  }

  lemma MakingKeeps(c: Spec.Ctx, o: Origin, j: Job, fs: Fs, events: seq<Event>, log: seq<Spec.Unlinked>)
    requires Sited(c, o, j) && Kept(c, o, j, j.recovery, Phase(Staged, false, false), fs, Some(c.manifest), events, log)
    requires CanMakeDir(fs, o.parent, j.recoveryName, j.recovery)
    ensures var next := MakeDir(fs, o.parent, j.recoveryName, j.recovery, j.made);
      && NamesIn(next, j.recovery) == map[]
      && Kept(c, o, j, j.recovery, Phase(Staged, true, false), next, Some(c.manifest),
              events + [Event(Spec.Step(true, fs, next), Some(c.manifest))], log)
  {
    hide Careful, Sounds;
    var rows, q, next :=
      Some(c.manifest), Phase(Staged, true, false), MakeDir(fs, o.parent, j.recoveryName, j.recovery, j.made);
    KeptNames(c, o, j, j.recovery, Phase(Staged, false, false), fs, rows, events, log);
    assert Safety.SafeChange(c, fs, next);
    hide Safety.SafeChange;
    assert Placed(c, o, j, q, next) && NamesIn(next, j.recovery) == map[];
    KeptGrows(c, o, j, j.recovery, Phase(Staged, false, false), fs, rows, events, log,
              Event(Spec.Step(true, fs, next), rows), q);
  }

  /** The directory opened as `d`: the made one if other processes leave the item's directory alone. */
  lemma OpeningKeeps(c: Spec.Ctx, o: Origin, j: Job, d: Key, fs: Fs, events: seq<Event>, log: seq<Spec.Unlinked>)
    requires Sited(c, o, j) && Kept(c, o, j, j.recovery, Phase(Staged, true, false), fs, Some(c.manifest), events, log)
    requires o.parent in c.guarded ==> d == j.recovery
    ensures Kept(c, o, j, d, Phase(Staged, true, false), fs, Some(c.manifest), events, log)
  {
    hide Careful, Sounds, Placed, WriteAhead;
  }

  /** With the item's directory left alone, its recovery name holds what was made. */
  lemma RecoveryNameHolds(c: Spec.Ctx, o: Origin, j: Job, fs: Fs, events: seq<Event>, log: seq<Spec.Unlinked>)
    requires Kept(c, o, j, j.recovery, Phase(Staged, true, false), fs, Some(c.manifest), events, log)
    requires Named(fs, o.parent, j.recoveryName)
    ensures o.parent in c.guarded ==> fs.dirs[o.parent][j.recoveryName] == j.recovery
  {
    hide Careful, Sounds, WriteAhead;
  }

  lemma DroppingKeeps(c: Spec.Ctx, o: Origin, j: Job, d: Key, fs: Fs, events: seq<Event>, log: seq<Spec.Unlinked>)
    requires Sited(c, o, j) && Kept(c, o, j, d, Phase(Away, true, false), fs, Some(c.manifest), events, log)
    requires CanRemoveDir(fs, o.parent, j.recoveryName)
    requires d == j.recovery ==> NamesIn(fs, j.recovery) == map[]
    ensures var next := RemoveDir(fs, o.parent, j.recoveryName);
      && (d == j.recovery ==> NamesIn(next, j.recovery) == map[])
      && Kept(c, o, j, d, Phase(Away, false, false), next, Some(c.manifest),
              events + [Event(Spec.Step(true, fs, next), Some(c.manifest))], log)
  {
    hide Careful, Sounds, Safety.SafeChange, Safety.RecoveryRows;
    var rows, q, next := Some(c.manifest), Phase(Away, false, false), RemoveDir(fs, o.parent, j.recoveryName);
    Safety.RemoveDirIsSafe(c, fs, o.parent, j.recoveryName);
    KeptNames(c, o, j, d, Phase(Away, true, false), fs, rows, events, log);
    assert Placed(c, o, j, q, next);
    assert d == j.recovery ==> NamesIn(next, j.recovery) == map[];
    KeptGrows(c, o, j, d, Phase(Away, true, false), fs, rows, events, log, Event(Spec.Step(true, fs, next), rows), q);
  }

  /** The rows are committed before anything is staged. */
  lemma CommittingKeeps(c: Spec.Ctx, o: Origin, j: Job, fs: Fs, rows: Option<map<Path, Identity>>, events: seq<Event>,
                        log: seq<Spec.Unlinked>)
    requires Kept(c, o, j, j.recovery, Phase(Original, false, true), fs, rows, events, log)
    ensures Kept(c, o, j, j.recovery, Phase(Original, false, true), fs, Some(c.manifest),
                 events + [Event(Spec.Step(false, fs, fs), Some(c.manifest))], log)
  {
    hide Careful, Sounds, Safety.SafeChange, Safety.RecoveryRows;
    var p, e := Phase(Original, false, true), Event(Spec.Step(false, fs, fs), Some(c.manifest));
    KeptNames(c, o, j, j.recovery, p, fs, rows, events, log);
    assert Ahead(c, o, j, fs, Some(c.manifest));
    KeptGrows(c, o, j, j.recovery, p, fs, rows, events, log, e, p);
  }

  /** The rows go when nothing is left that they describe. */
  lemma ErasingKeeps(c: Spec.Ctx, o: Origin, j: Job, d: Key, fs: Fs, events: seq<Event>, log: seq<Spec.Unlinked>)
    requires Kept(c, o, j, d, Phase(Away, false, false), fs, Some(c.manifest), events, log)
    ensures Kept(c, o, j, d, Phase(Away, false, false), fs, None, events + [Event(Spec.Step(false, fs, fs), None)], log)
  {
    hide Careful, Sounds, Safety.SafeChange, Safety.RecoveryRows;
    var p, e := Phase(Away, false, false), Event(Spec.Step(false, fs, fs), None);
    KeptNames(c, o, j, d, p, fs, Some(c.manifest), events, log);
    assert d == j.recovery ==> Ahead(c, o, j, fs, None);
    KeptGrows(c, o, j, d, p, fs, Some(c.manifest), events, log, e, p);
  }

  // ---- Evidence ----------------------------------------------------------

  /** The full revalidation found the reviewed contents, with one row per path. */
  ghost predicate Reviewed(r: Request, a: Answers) {
    a.reviewed.Some? && DistinctPaths(a.reviewed.value) && Contents(a.reviewed.value) == r.candidate.contents
  }

  /** What allows the first change. */
  ghost predicate Justified(r: Request, a: Answers) { Authorized(r) && Reviewed(r, a) }

  /**
   * What allows Trash or removal: the staged item still has the reviewed contents,
   * all its hard links, and its retained copy.
   */
  ghost predicate StagedAsReviewed(r: Request, a: Answers) {
    && MeasuredAsReviewed(r, a)
    && Closure.Closed(Metas(a.staged.value))
    && (r.keeper.Some? ==> SameContents(r.candidate, r.keeper.value))
  }

  predicate MeasuredAsReviewed(r: Request, a: Answers) {
    a.staged.Some? && Contents(a.staged.value) == r.candidate.contents
  }

  /**
   * The retained file is an independent one with exactly the staged copy's bytes, and
   * they can be compared within the budget.
   */
  predicate SameContents(candidate: Candidate, keeper: Keeper) {
    Exact.SameFile(CopyOf(candidate, keeper), keeper.retained) && 2 * |keeper.retained.contents| <= Exact.MAX_READ_BYTES
  }

  /** The staged copy is the reviewed object. */
  function CopyOf(candidate: Candidate, keeper: Keeper): Grouping.Item {
    keeper.copy.(device := candidate.identity.device, inode := candidate.identity.inode)
  }

  // ---- What an undisturbed operation needs -------------------------------

  /** The item's name holds exactly the reviewed object. */
  predicate SeesItem(r: Request, fs: Fs) {
    Stat(fs, r.candidate.place.dir, r.candidate.place.name).Some?
    && Stat(fs, r.candidate.place.dir, r.candidate.place.name).value.identity == r.candidate.identity
  }

  /** An undisturbed operation gets a receipt. */
  predicate Opens(r: Request, fs: Fs, known: bool) {
    Authorized(r) && SeesItem(r, fs) && r.candidate.identity.device == r.rootDevice && !known
  }

  /** An undisturbed operation commits its manifest. */
  ghost predicate Commits(r: Request, a: Answers, fs: Fs, known: bool) {
    Reviewed(r, a) && SeesItem(r, fs) && !known
  }

  predicate CanStage(r: Request, j: Job, fs: Fs) {
    CanRename(fs, r.candidate.place.dir, r.candidate.place.name, r.candidate.place.dir, j.stage)
  }

  function StagedFs(r: Request, j: Job, fs: Fs): Fs
    requires CanStage(r, j, fs)
  {
    Rename(fs, r.candidate.place.dir, r.candidate.place.name, r.candidate.place.dir, j.stage)
  }

  /** The stage name holds the reviewed object. */
  predicate SeesObject(r: Request, j: Job, fs: Fs) {
    Stat(fs, r.candidate.place.dir, j.stage).Some?
    && SameObject(Stat(fs, r.candidate.place.dir, j.stage).value.identity, r.candidate.identity)
  }

  /** One metadata value per object, within the closure's limit, and no interruption of the comparison. */
  ghost predicate Measurable(r: Request, a: Answers) {
    && (a.staged.Some? ==>
          && Closure.Consistent(Metas(a.staged.value))
          && |Closure.Objects(Metas(a.staged.value))| <= Closure.MAX_LINK_IDENTITIES)
    && (r.keeper.Some? ==> r.keeper.value.signals == [])
  }

  /** The retained file, still open, is still what was indexed. */
  predicate StillValid(keeper: Keeper) { !keeper.last.Changed? && !keeper.last.Breaks? }

  predicate TrashTakes(c: Spec.Ctx, o: Origin, r: Request, a: Answers, j: Job, fs: Fs) {
    && a.trash.Some? && (r.keeper.Some? ==> StillValid(r.keeper.value))
    && var reply := a.trash.value;
    && TrashMay(c, o, j, fs, reply) && reply.ok
    && var found := Stat(reply.next, reply.place.dir, reply.place.name);
    && found.Some? && SameObject(found.value.identity, r.candidate.identity)
  }

  /** The directory open as `d` is the one whose identity was noted, and it is private to this user. */
  predicate VerifiedRecovery(j: Job, fs: Fs, d: Key, identity: Identity) {
    FStat(fs, d).Some? && Directory.Owned(identity, FStat(fs, d).value, j.euid)
  }

  predicate CanMakeRecovery(r: Request, j: Job, fs: Fs) {
    && CanMakeDir(fs, r.candidate.place.dir, j.recoveryName, j.recovery)
    && j.made.uid == j.euid && j.made.mode % 0x200 == 0x1C0
  }

  function RecoveryFs(r: Request, j: Job, fs: Fs): Fs
    requires CanMakeRecovery(r, j, fs)
  {
    MakeDir(fs, r.candidate.place.dir, j.recoveryName, j.recovery, j.made)
  }

  predicate CanDrop(r: Request, j: Job, fs: Fs, identity: Identity) {
    && CanRemoveDir(fs, r.candidate.place.dir, j.recoveryName)
    && SameObject(identity, Stat(fs, r.candidate.place.dir, j.recoveryName).value.identity)
  }

  /** The walk completes, every group is exhausted, and the recovery directory can go. */
  predicate RemovalFinishes(c: Spec.Ctx, r: Request, j: Job, fs: Fs, listings: seq<seq<Name>>,
                            groups: map<Key, Spec.LinkRemoval>, identity: Identity) {
    var (s, v) := Spec.Remove(c, Theorems.Start(fs, [], listings, groups), r.candidate.place.dir, j.stage, [], true);
    v.Fine? && Spec.Exhausted(s.groups) && CanDrop(r, j, s.fs, identity)
  }

  function RecoveryIdentity(j: Job): Identity { MetaOf(j.recovery, j.made).identity }

  /** Everything the permanent branch needs, from the staged item on. */
  predicate RemovalGoes(c: Spec.Ctx, r: Request, j: Job, fs: Fs, listings: seq<seq<Name>>,
                        groups: map<Key, Spec.LinkRemoval>) {
    CanMakeRecovery(r, j, fs) && RemovalFinishes(c, r, j, RecoveryFs(r, j, fs), listings, groups, RecoveryIdentity(j))
  }

  /** Where a removal with the recovery directory in `made` ends, once that directory has been removed too. */
  predicate EndsFrom(c: Spec.Ctx, r: Request, j: Job, made: Fs, listings: seq<seq<Name>>,
                     groups: map<Key, Spec.LinkRemoval>, last: Fs, removed: Spec.Removed, completed: nat)
  {
    var dir := r.candidate.place.dir;
    var s := Spec.Remove(c, Theorems.Start(made, [], listings, groups), dir, j.stage, [], true).0;
    && CanRemoveDir(s.fs, dir, j.recoveryName) && last == RemoveDir(s.fs, dir, j.recoveryName)
    && removed == s.removed && completed == s.completed
  }

  /** The same from the staged item on. */
  predicate EndsAs(c: Spec.Ctx, r: Request, j: Job, fs: Fs, listings: seq<seq<Name>>,
                   groups: map<Key, Spec.LinkRemoval>, last: Fs, removed: Spec.Removed, completed: nat)
  {
    CanMakeRecovery(r, j, fs) && EndsFrom(c, r, j, RecoveryFs(r, j, fs), listings, groups, last, removed, completed)
  }

  /** The same from the request on, with the groups the evidence gives. */
  ghost predicate EndsWhole(c: Spec.Ctx, r: Request, a: Answers, j: Job, fs: Fs, listings: seq<seq<Name>>,
                            last: Fs, removed: Spec.Removed, completed: nat)
  {
    && CanStage(r, j, fs)
    && exists groups ::
         Verified(r, a, groups) && EndsAs(c, r, j, StagedFs(r, j, fs), listings, groups, last, removed, completed)
  }

  /** Which metadata of the new directory was noted does not matter. */
  lemma AnyIdentity(c: Spec.Ctx, r: Request, j: Job, fs: Fs, listings: seq<seq<Name>>,
                    groups: map<Key, Spec.LinkRemoval>, identity: Identity)
    requires CanMakeRecovery(r, j, fs) && VerifiedRecovery(j, RecoveryFs(r, j, fs), j.recovery, identity)
    ensures RemovalFinishes(c, r, j, RecoveryFs(r, j, fs), listings, groups, identity)
      <==> RemovalGoes(c, r, j, fs, listings, groups)
  {
    assert SameObject(identity, RecoveryIdentity(j));
    hide Spec.Remove, RecoveryFs, CanRemoveDir;
  }

  lemma GoesFirst(c: Spec.Ctx, r: Request, j: Job, fs: Fs, listings: seq<seq<Name>>, groups: map<Key, Spec.LinkRemoval>)
    ensures RemovalGoes(c, r, j, fs, listings, groups) ==> CanMakeRecovery(r, j, fs)
  {
  }

  function BudgetOf(before: Samples, after: Option<Samples>): Option<Budget> {
    if after.Some? then RecoveryBudget(before, after.value) else None
  }

  // ---- What follows from the evidence, and what Trash may do --------------

  /** With that evidence, the groups the removal starts from. */
  ghost predicate Verified(r: Request, a: Answers, groups: map<Key, Spec.LinkRemoval>) {
    && StagedAsReviewed(r, a)
    && Runs.GroupsSound(groups)
    && groups.Keys == Closure.Objects(Metas(a.staged.value))
    && forall m :: m in Metas(a.staged.value) && Closure.MultiLink(m) ==>
         groups[m.Object()] == Spec.LinkRemoval(m.identity, m)
  }

  /** A closed closure of the staged measurement is that evidence. */
  lemma EvidenceHolds(r: Request, a: Answers, closed: map<Key, EntryMeta>)
    requires StagedAsReviewed(r, a) && closed.Keys == Closure.Objects(Metas(a.staged.value))
    requires forall m :: m in Metas(a.staged.value) && Closure.MultiLink(m) ==> closed[m.Object()] == m
    ensures Verified(r, a, Theorems.FromClosure(closed))
  {
    hide Metas, Contents, SameContents, Closure.Closed;
    forall k | k in closed ensures closed[k].Object() == k && closed[k].IsFile() {
      assert k in Closure.Objects(Metas(a.staged.value));
    }
    Theorems.FromClosureSound(closed);
  }

  lemma VerifiedIsSound(r: Request, a: Answers, groups: map<Key, Spec.LinkRemoval>)
    requires Verified(r, a, groups)
    ensures Runs.GroupsSound(groups)
  {
  }

  /** The evidence determines the groups. */
  lemma VerifiedOnce(r: Request, a: Answers, g: map<Key, Spec.LinkRemoval>, h: map<Key, Spec.LinkRemoval>)
    requires Verified(r, a, g) && Verified(r, a, h)
    ensures g == h
  {
    forall k | k in g ensures g[k] == h[k] {
      assert k in Closure.Objects(Metas(a.staged.value));
      var m :| m in Metas(a.staged.value) && Closure.MultiLink(m) && m.Object() == k;
    }
  }

  /** From the committed manifest on, everything an undisturbed operation needs to stage the item. */
  ghost predicate Stages(r: Request, a: Answers, j: Job, fs: Fs) {
    CanStage(r, j, fs) && SeesObject(r, j, StagedFs(r, j, fs)) && StagedAsReviewed(r, a)
  }

  ghost predicate Trashes(c: Spec.Ctx, o: Origin, r: Request, a: Answers, j: Job, fs: Fs) {
    r.operation == Trash && Stages(r, a, j, fs) && TrashTakes(c, o, r, a, j, StagedFs(r, j, fs))
  }

  ghost predicate Removes(c: Spec.Ctx, r: Request, a: Answers, j: Job, fs: Fs, listings: seq<seq<Name>>) {
    && r.operation == Permanent && Stages(r, a, j, fs)
    && exists groups :: Verified(r, a, groups) && RemovalGoes(c, r, j, StagedFs(r, j, fs), listings, groups)
  }

  lemma RemovesExactly(c: Spec.Ctx, r: Request, a: Answers, j: Job, fs: Fs, listings: seq<seq<Name>>,
                       groups: map<Key, Spec.LinkRemoval>)
    requires r.operation == Permanent && Stages(r, a, j, fs) && Verified(r, a, groups)
    ensures Removes(c, r, a, j, fs, listings) <==> RemovalGoes(c, r, j, StagedFs(r, j, fs), listings, groups)
  {
    hide RemovalGoes, StagedFs, StagedAsReviewed, SeesObject, CanStage, Verified;
    if Removes(c, r, a, j, fs, listings) {
      var g :| Verified(r, a, g) && RemovalGoes(c, r, j, StagedFs(r, j, fs), listings, g);
      VerifiedOnce(r, a, g, groups);
    }
  }

  lemma StagesFirst(r: Request, a: Answers, j: Job, fs: Fs)
    ensures Stages(r, a, j, fs) ==> CanStage(r, j, fs)
  {
  }

  lemma RemovesFirst(c: Spec.Ctx, r: Request, a: Answers, j: Job, fs: Fs, listings: seq<seq<Name>>)
    ensures Removes(c, r, a, j, fs, listings) ==> r.operation == Permanent && Stages(r, a, j, fs)
  {
  }

  /** A staged, closed, reviewed tree, seen when the recovery directory has just been made. */
  ghost predicate ClosedStage(c: Spec.Ctx, r: Request, j: Job, fs: Fs, facts: map<Key, Quiet.Facts>, t: Quiet.Tree,
                              groups: map<Key, Spec.LinkRemoval>) {
    var parent := r.candidate.place.dir;
    var s0 := Theorems.Start(fs, [], Quiet.Listings(t), groups);
    && Quiet.Fits(c, s0, facts, [], t, true) && Quiet.Holds(s0, parent, j.stage, t.key)
    && parent !in Quiet.Dirs(t) && parent != c.recovery && c.recovery !in Quiet.Dirs(t)
    && parent.device == c.recovery.device
    && Theorems.ClosedTree(fs, t) && Theorems.GroupsOf(groups, fs, t) && c.manifest.Keys == Theorems.Paths([], t)
  }

  /** Undisturbed, the permanent branch removes a closed tree of any shape, and the recovery directory after it. */
  lemma ClosedTreeGoes(c: Spec.Ctx, r: Request, j: Job, fs: Fs, facts: map<Key, Quiet.Facts>, t: Quiet.Tree,
                       groups: map<Key, Spec.LinkRemoval>, ds: seq<Key>)
    requires c.recovery == j.recovery && CanMakeRecovery(r, j, fs)
    requires ClosedStage(c, r, j, RecoveryFs(r, j, fs), facts, t, groups)
    requires Theorems.Distinct(ds) && forall k :: k in Quiet.Leaves(t) <==> k in ds
    ensures RemovalGoes(c, r, j, fs, Quiet.Listings(t), groups)
  {
    var parent, made := r.candidate.place.dir, RecoveryFs(r, j, fs);
    var s0 := Theorems.Start(made, [], Quiet.Listings(t), groups);
    Quiet.TreeKeys(c, s0, facts, [], t, true);
    assert made.dirs[c.recovery] == map[] && made.inodes[c.recovery] == j.made;
    assert made.dirs[parent][j.recoveryName] == j.recovery;
    Theorems.UndisturbedRemoval(c, made, facts, t, groups, parent, j.stage, ds);
    var (s, v) := Spec.Remove(c, s0, parent, j.stage, [], true);
    hide Spec.Remove, Quiet.Fits, Theorems.ClosedTree, Theorems.GroupsOf, Theorems.Paths, RecoveryFs, Quiet.Listings;
    assert t.key != c.recovery;
    RecoveryCanGo(c, r, j, s0, s, t);
  }

  lemma RecoveryCanGo(c: Spec.Ctx, r: Request, j: Job, s0: Spec.State, s: Spec.State, t: Quiet.Tree)
    requires var parent := r.candidate.place.dir;
      && Quiet.Cleared(c, s0, s, parent, {j.stage}, Quiet.Dirs(t), Quiet.Leaves(t))
      && c.recovery == j.recovery && c.recovery !in Quiet.Dirs(t) && parent != c.recovery && t.key != c.recovery
      && Quiet.Holds(s0, parent, j.stage, t.key)
      && c.recovery in s0.fs.dirs && c.recovery in s0.fs.inodes && s0.fs.inodes[c.recovery] == j.made
      && parent in s0.fs.dirs && j.recoveryName in s0.fs.dirs[parent]
      && s0.fs.dirs[parent][j.recoveryName] == j.recovery
    ensures CanDrop(r, j, s.fs, RecoveryIdentity(j))
  {
  }

  predicate Holding(fs: Fs, place: Place, identity: Identity) {
    Stat(fs, place.dir, place.name).Some? && Stat(fs, place.dir, place.name).value.identity == identity
  }

  /** The staged name is gone after the reply. */
  predicate Gone(c: Spec.Ctx, o: Origin, j: Job, reply: TrashReply) {
    o.parent in c.guarded ==> j.stage !in NamesIn(reply.next, o.parent)
  }

  /** The directory gained that one name and kept all others. */
  predicate GainsName(before: map<Name, Key>, after: map<Name, Key>, name: Name) {
    name !in before && name in after && after - {name} == before
  }

  /**
   * What native Trash may do.  It takes the staged name away if it says so, and
   * touches no other name beside it; in the directory it reports it adds the
   * reported name, over none, if it says so, and touches no other name there.
   */
  predicate TrashMay(c: Spec.Ctx, o: Origin, j: Job, fs: Fs, reply: TrashReply) {
    var dir := reply.place.dir;
    && Allowed(c.guarded - {o.parent, dir} + {j.recovery}, fs, reply.next)
    && (o.parent in c.guarded ==>
          NamesIn(reply.next, o.parent) in {NamesIn(fs, o.parent), NamesIn(fs, o.parent) - {j.stage}})
    && (dir in c.guarded - {o.parent, j.recovery} ==>
          || GainsName(NamesIn(fs, dir), NamesIn(reply.next, dir), reply.place.name)
          || (!reply.ok && NamesIn(reply.next, dir) == NamesIn(fs, dir)))
    && (reply.ok ==> Gone(c, o, j, reply))
  }

  /** Native Trash as an exclusive rename of the staged item into any other directory is one of these. */
  lemma RenamingIsTrash(c: Spec.Ctx, o: Origin, j: Job, fs: Fs, place: Place)
    requires Sited(c, o, j) && place.dir !in {o.parent, j.recovery}
    requires CanRename(fs, o.parent, j.stage, place.dir, place.name)
    ensures TrashMay(c, o, j, fs, TrashReply(true, place, Rename(fs, o.parent, j.stage, place.dir, place.name)))
  {
    var next := Rename(fs, o.parent, j.stage, place.dir, place.name);
    hide Safety.Reviewed;
    assert NamesIn(next, o.parent) == NamesIn(fs, o.parent) - {j.stage};
    assert NamesIn(next, place.dir) - {place.name} == NamesIn(fs, place.dir);
    forall d | d in c.guarded - {o.parent, place.dir} + {j.recovery}
      ensures (d in fs.dirs <==> d in next.dirs) && (d in fs.dirs ==> next.dirs[d] == fs.dirs[d])
    {
      assert d != o.parent && d != place.dir;
    }
  }

  lemma TrashKeeps(c: Spec.Ctx, o: Origin, j: Job, fs: Fs, reply: TrashReply, events: seq<Event>,
                   log: seq<Spec.Unlinked>)
    requires Sited(c, o, j) && TrashMay(c, o, j, fs, reply)
    requires Kept(c, o, j, j.recovery, Phase(Staged, false, false), fs, Some(c.manifest), events, log)
    ensures Kept(c, o, j, j.recovery, Phase(if Gone(c, o, j, reply) then Away else Staged, false, false), reply.next,
                 Some(c.manifest), events + [Event(Spec.Step(false, fs, reply.next), Some(c.manifest))], log)
  {
    hide Careful, Sounds;
    var p, q := Phase(Staged, false, false), Phase(if Gone(c, o, j, reply) then Away else Staged, false, false);
    KeptNames(c, o, j, j.recovery, p, fs, Some(c.manifest), events, log);
    assert NamesIn(reply.next, j.recovery) == NamesIn(fs, j.recovery) == map[];
    assert Placed(c, o, j, q, reply.next);
    assert Ahead(c, o, j, reply.next, Some(c.manifest));
    KeptGrows(c, o, j, j.recovery, p, fs, Some(c.manifest), events, log,
              Event(Spec.Step(false, fs, reply.next), Some(c.manifest)), q);
  }

  /** What an outcome says about where the item is, what was kept, and what was earned. */
  ghost predicate Agrees(r: Receipt, p: Phase) {
    && (match r.outcome
        case Skipped => !p.recovery && p.item != Away
        case Cancelled => if r.operation == Trash then !p.recovery && p.item != Away else p.recovery || p.item != Away
        case Failed => if r.operation == Trash then !p.recovery && !p.idle else p.item == Staged
        case Trashed => r.operation == Trash && p == Phase(Away, false, false)
        case Deleted => r.operation == Permanent && p == Phase(Away, false, false)
        case Partial => r.operation == Permanent && p.recovery
        case _ => false)
    && (p.idle ==> r.outcome in {Skipped, Cancelled})
    && (r.canRestore <==> r.outcome == Trashed)
    && (r.outcome == Trashed ==> r.trash.Some?)
    && (r.credited > 0 || r.coins > 0 ==> r.operation == Permanent && r.outcome == Deleted)
    && r.credited <= r.reported
  }

  // ---- The removal, as one part of the operation --------------------------

  /** Every multi-link file measured in the staged item lost exactly its reviewed number of names. */
  ghost predicate AllAliasesRemoved(a: Answers, log: seq<Spec.Unlinked>) {
    && a.staged.Some?
    && forall m :: m in Metas(a.staged.value) && Closure.MultiLink(m) ==> Runs.Unlinks(log, m.Object()) == m.links
  }

  lemma AliasesRemoved(r: Request, a: Answers, groups: map<Key, Spec.LinkRemoval>, s0: Spec.State, s1: Spec.State)
    requires Verified(r, a, groups) && s0.groups == groups && s0.log == []
    requires Runs.Conserves(s0, s1, None) && Spec.Exhausted(s1.groups)
    ensures AllAliasesRemoved(a, s1.log)
  {
    forall m | m in Metas(a.staged.value) && Closure.MultiLink(m)
      ensures Runs.Unlinks(s1.log, m.Object()) == m.links
    {
      assert Runs.Account(s1, m.Object()) == Runs.Account(s0, m.Object());
    }
  }

  function AfterRemoval(o: Origin, j: Job, v: Spec.Verdict, fs: Fs): Phase {
    Phase(if v.Fine? || j.stage !in NamesIn(fs, o.parent) then Away else Staged, true, false)
  }

  lemma StagePlaces(c: Spec.Ctx, o: Origin, j: Job, s0: Spec.State)
    requires Sited(c, o, j)
    requires Placed(c, o, j, Phase(Staged, true, false), s0.fs)
    ensures var (s1, v) := Spec.Remove(c, s0, o.parent, j.stage, [], true);
      Placed(c, o, j, AfterRemoval(o, j, v, s1.fs), s1.fs)
  {
    if o.parent in c.guarded {
      assert j.recoveryName in NamesIn(s0.fs, o.parent) && j.recoveryName != j.stage;
      assert j.recoveryName in NamesIn(s0.fs, o.parent) - {j.stage};
      Places.StageOnly(c, s0, o.parent, j.stage);
      hide Spec.Remove, Sited;
      var (s1, v) := Spec.Remove(c, s0, o.parent, j.stage, [], true);
      assert v.Fine? ==> j.stage !in NamesIn(s1.fs, o.parent);
      StageGone(c, o, j, s0.fs, s1.fs);
    }
    hide Spec.Remove, Sited;
  }

  /** If at most the stage name went, the item is staged or away. */
  lemma StageGone(c: Spec.Ctx, o: Origin, j: Job, before: Fs, after: Fs)
    requires Placed(c, o, j, Phase(Staged, true, false), before) && o.parent in c.guarded
    requires NamesIn(after, o.parent) in {NamesIn(before, o.parent), NamesIn(before, o.parent) - {j.stage}}
    ensures Placed(c, o, j, Phase(if j.stage in NamesIn(after, o.parent) then Staged else Away, true, false), after)
  {
    var names := NamesIn(before, o.parent);
    assert j.recoveryName in names && j.recoveryName != j.stage && j.stage in names;
    assert names - {j.stage} == Base(o, j, Away)[j.recoveryName := j.recovery];
  }

  /** A removal that was not stopped leaves nothing in the recovery directory, and the groups balance. */
  lemma RemovalLeaves(c: Spec.Ctx, s0: Spec.State, v: Spec.Verdict, s1: Spec.State)
    requires Runs.Walked(c, s0, s1, v)
    ensures v.Fine? ==> Runs.Conserves(s0, s1, None)
    ensures v.Fine? && NamesIn(s0.fs, c.recovery) == map[] ==> NamesIn(s1.fs, c.recovery) == map[]
  {
    hide Safety.Run, Runs.Conserves, Runs.GroupsSound;
    if v.Fine? { assert Safety.NamesOf(s1, c.recovery) <= Safety.NamesOf(s0, c.recovery); }
  }

  /** A removal run with `d` as recovery directory is one part of the history. */
  lemma RemovalKeeps(c: Spec.Ctx, o: Origin, j: Job, d: Key, events: seq<Event>, s0: Spec.State, v: Spec.Verdict,
                     s1: Spec.State)
    requires Sited(c, o, j) && s0.trace == [] && s0.log == [] && Runs.GroupsSound(s0.groups)
    requires Kept(c, o, j, d, Phase(Staged, true, false), s0.fs, Some(c.manifest), events, [])
    requires d == j.recovery ==> NamesIn(s0.fs, j.recovery) == map[]
    requires (s1, v) == Spec.Remove(c.(recovery := d), s0, o.parent, j.stage, [], true)
    ensures Kept(c, o, j, d, AfterRemoval(o, j, v, s1.fs), s1.fs, Some(c.manifest),
                 events + Absorbed(s1.trace, Some(c.manifest)), s1.log)
    ensures v.Fine? && Sheltered(c, o, d) ==> Runs.Conserves(s0, s1, None)
    ensures v.Fine? && d == j.recovery ==> NamesIn(s1.fs, j.recovery) == map[]
  {
    hide Spec.Remove, Placed, Careful, WriteAhead, Sounds, Runs.Conserves, Runs.GroupsSound, Absorbed;
    var c1 := c.(recovery := d);
    if Sheltered(c, o, d) {
      assert Safety.Guarded(c1) by { assert forall k :: Safety.Reviewed(c1, k) == Safety.Reviewed(c, k); }
      hide Safety.Reviewed;
      Runs.RemoveWalks(c1, s0, o.parent, j.stage, [], true);
      assert Safety.Run(c1, s0, s1) by { hide Safety.Run, Runs.Leftover; }
      RunIsCareful(c, d, o, events, s0, s1);
      RemovalLeaves(c1, s0, v, s1);
      hide Safety.Run, Runs.Walked;
      if d == j.recovery {
        assert c1 == c;
        RunIsAhead(c, o, j, events, s0, s1);
        StagePlaces(c, o, j, s0);
      }
    }
    hide Safety.Run, Runs.Walked;
    assert Placed(c, o, j, AfterRemoval(o, j, v, s1.fs), s1.fs) by {
      if d != j.recovery { assert o.parent !in c.guarded; Unguarded(c, o, j, AfterRemoval(o, j, v, s1.fs), s1.fs); }
    }
  }

  lemma Unguarded(c: Spec.Ctx, o: Origin, j: Job, p: Phase, fs: Fs)
    requires o.parent !in c.guarded && !p.idle
    ensures Placed(c, o, j, p, fs)
  {
  }

  // ---- What is paid --------------------------------------------------------

  /** The credit of a finished removal that counted these private bytes. */
  function CreditOf(r: Request, a: Answers, private: nat, known: bool): nat
    requires a.before.Some?
  {
    Credit(Permanent, Deleted, r.candidate.allocation, private, known, BudgetOf(a.before.value, a.after))
  }

  /** The least of the readings afterwards, which the window is closed with. */
  function LowOf(a: Answers): nat
    requires a.before.Some?
  {
    var budget := BudgetOf(a.before.value, a.after);
    if budget.Some? then budget.value.after else Maximum(a.before.value)
  }

  /** The operation's window can be opened. */
  ghost predicate WindowFree(store: Store, a: Answers)
    reads store`windows
  {
    && a.before.Some? && a.window !in store.windows && !store.DomainBusy(a.domain)
    && Maximum(a.before.value) <= MAX_I64
  }

  /** Tables with this remainder and these allocations take that credit for this operation. */
  ghost predicate Takes(r: Request, a: Answers, id: Id, remainder: nat, allocations: seq<Allocation>, private: nat,
                        known: bool) {
    && a.before.Some? && LowOf(a) <= MAX_I64 && private <= MAX_I64
    && CreditOf(r, a, private, known) <= MAX_I64 && remainder + CreditOf(r, a, private, known) <= MAX_U64
    && forall i :: 0 <= i < |allocations| ==> allocations[i].op != id
  }

  /** A finished removal can be paid: its window can be opened, and the tables take its credit. */
  ghost predicate Payable(store: Store, r: Request, a: Answers, id: Id, private: nat, known: bool)
    reads store`windows, store`remainder, store`allocations
  {
    WindowFree(store, a) && Takes(r, a, id, store.remainder, store.allocations, private, known)
  }

  /** A finished removal that could be paid was paid in full. */
  ghost predicate Paid(r: Request, a: Answers, removed: Spec.Removed, receipt: Receipt, payable: bool) {
    a.before.Some? && payable && receipt.outcome == Deleted ==>
      receipt.credited == CreditOf(r, a, removed.private, removed.privateKnown)
  }

  lemma NothingPaid(r: Request, a: Answers, removed: Spec.Removed, receipt: Receipt)
    requires receipt.outcome != Deleted
    ensures forall payable :: Paid(r, a, removed, receipt, payable)
  {
  }

  // ---- Putting the item back ----------------------------------------------

  /** The file system the next call meets. */
  function Met(guarded: set<Key>, fs: Fs, turns: seq<Turn>): Fs {
    if turns != [] && turns[0].next.Some? && Allowed(guarded, fs, turns[0].next.value) then turns[0].next.value else fs
  }

  function Coming(turns: seq<Turn>): Turn { Spec.TurnAt(turns, 0) }

  function Rest(turns: seq<Turn>): seq<Turn> { if turns == [] then [] else turns[1..] }

  /** None of the next `n` calls fails. */
  predicate Held(turns: seq<Turn>, n: nat) { forall i :: 0 <= i < n ==> !Spec.TurnAt(turns, i).fault }

  lemma HeldOn(turns: seq<Turn>, n: nat)
    ensures !Coming(turns).fault && Held(Rest(turns), n) ==> Held(turns, n + 1)
    ensures Spec.TurnAt(Rest(turns), n) == Spec.TurnAt(turns, n + 1) && Held(turns, 0)
  {
    assert forall i: nat :: Spec.TurnAt(Rest(turns), i) == Spec.TurnAt(turns, i + 1);
    forall i: nat | 0 < i < n + 1 && Held(Rest(turns), n) ensures !Spec.TurnAt(turns, i).fault {
      assert Spec.TurnAt(turns, i) == Spec.TurnAt(Rest(turns), i - 1);
    }
  }

  lemma HeldFour(turns: seq<Turn>)
    requires !Coming(turns).fault && !Coming(Rest(turns)).fault
    requires !Coming(Rest(Rest(turns))).fault && !Coming(Rest(Rest(Rest(turns)))).fault
    ensures Held(turns, 4)
  {
  }

  /** What the rename back met: the file system, and whether the call failed. */
  datatype Meeting = Meeting(fs: Fs, fault: bool)

  /** The stage name still holds something, and the item's own name is free. */
  predicate CanGoBack(r: Request, j: Job, fs: Fs) {
    CanRename(fs, r.candidate.place.dir, j.stage, r.candidate.place.dir, r.candidate.place.name)
  }

  function BackFs(r: Request, j: Job, fs: Fs): Fs
    requires CanGoBack(r, j, fs)
  {
    Rename(fs, r.candidate.place.dir, j.stage, r.candidate.place.dir, r.candidate.place.name)
  }

  predicate GoesBack(r: Request, j: Job, m: Meeting) { !m.fault && CanGoBack(r, j, m.fs) }

  /** A staged item can go back, and then every name is what it was. */
  lemma StagedGoesBack(r: Request, j: Job, fs: Fs)
    requires CanStage(r, j, fs)
    ensures CanGoBack(r, j, StagedFs(r, j, fs)) && BackFs(r, j, StagedFs(r, j, fs)).dirs == fs.dirs
  {
    var d := r.candidate.place.dir;
    assert BackFs(r, j, StagedFs(r, j, fs)).dirs[d] == fs.dirs[d];
  }

  /** Native Trash, if it was asked, left the names beside the staged item and the item itself. */
  predicate TrashLeaves(r: Request, a: Answers, j: Job, fs: Fs) {
    && CanStage(r, j, fs)
    && (a.trash.Some? ==>
          && NamesIn(a.trash.value.next, r.candidate.place.dir) == NamesIn(StagedFs(r, j, fs), r.candidate.place.dir)
          && Named(a.trash.value.next, r.candidate.place.dir, j.stage))
  }

  lemma TrashedGoesBack(r: Request, a: Answers, j: Job, fs: Fs, after: Fs)
    requires TrashLeaves(r, a, j, fs)
    requires after == StagedFs(r, j, fs) || (a.trash.Some? && after == a.trash.value.next)
    ensures CanGoBack(r, j, after)
    ensures NamesIn(BackFs(r, j, after), r.candidate.place.dir) == NamesIn(fs, r.candidate.place.dir)
  {
    StagedGoesBack(r, j, fs);
    var d, staged := r.candidate.place.dir, StagedFs(r, j, fs);
    assert NamesIn(after, d) == NamesIn(staged, d);
    assert BackFs(r, j, after).dirs[d] == BackFs(r, j, staged).dirs[d];
  }

  // ---- The run -----------------------------------------------------------

  class CleanupRun {
    const store: Store
    const request: Request
    const answers: Answers
    const job: Job
    const guarded: set<Key>
    const origin: Origin
    // The kernel, and what other processes and directory iteration will do.
    var fs: Fs
    var turns: seq<Turn>
    var listings: seq<seq<Name>>
    // The directory open as recovery directory; until then, the one `mkdirat` will make.
    var descriptor: Key
    // History
    ghost var events: seq<Event>
    ghost var log: seq<Spec.Unlinked>
    ghost var phase: Phase
    ghost var back: Option<Meeting>   // what the rename back met, if it was tried
    ghost var removed: Spec.Removed   // the removal's own counters
    ghost var completed: nat          // its progress

    function ReviewedRows(): map<Path, Identity> { RowsOf(answers) }

    /** Nobody pointed the recovery name elsewhere before it was opened. */
    predicate Straight()
      reads this`descriptor
    {
      descriptor == job.recovery
    }

    function Context(): Spec.Ctx { ContextOf(answers, job, guarded) }

    /** What the removal works with: the directory it opened. */
    function Opened(): Spec.Ctx
      reads this`descriptor
    {
      Context().(recovery := descriptor)
    }

    function Parent(): Key { request.candidate.place.dir }

    function RowsNow(): Option<map<Path, Identity>>
      reads store
    {
      if job.id in store.manifest then Some(store.manifest[job.id]) else None
    }

    /** The recovery key and the item's place. */
    ghost predicate Fresh() {
      && Sited(Context(), origin, job) && job.recovery !in origin.fs.dirs
      && origin.parent == Parent() && origin.name == request.candidate.place.name
    }

    /** What holds between any two steps of the operation. */
    ghost predicate Going()
      reads this, store
    {
      Fresh() && store.Valid() && Kept(Context(), origin, job, descriptor, phase, fs, RowsNow(), events, log)
    }

    constructor (store: Store, request: Request, answers: Answers, job: Job, guarded: set<Key>, fs: Fs,
                 turns: seq<Turn>, listings: seq<seq<Name>>)
      requires store.Valid()
      requires job.recovery in guarded && job.recovery !in fs.dirs && request.candidate.place.dir != job.recovery
      requires forall p :: p in RowsOf(answers) ==>
        RowsOf(answers)[p].Object() !in {job.recovery, request.candidate.place.dir}
      ensures this.store == store && this.request == request && this.answers == answers && this.job == job
      ensures this.guarded == guarded
      ensures this.fs == fs && this.turns == turns && this.listings == listings
      ensures origin == Origin(fs, request.candidate.place.dir, request.candidate.place.name)
      ensures Going() && Straight() && phase == Phase(Original, false, true) && events == [] && log == []
      ensures back == None
    {
      this.store, this.request, this.answers, this.job, this.guarded := store, request, answers, job, guarded;
      this.fs, this.turns, this.listings := fs, turns, listings;
      origin, descriptor := Origin(fs, request.candidate.place.dir, request.candidate.place.name), job.recovery;
      events, log, phase, removed := [], [], Phase(Original, false, true), Spec.Removed(0, true, 0);
      completed, back := 0, None;
    }

    /** Other processes run until the next call. */
    method Wait() returns (t: Turn)
      requires Going()
      modifies this`fs, this`turns, this`events
      ensures Going() && NamesIn(fs, job.recovery) == old(NamesIn(fs, job.recovery))
      ensures Allowed(guarded, old(fs), fs)
      ensures t == Coming(old(turns)) && turns == Rest(old(turns)) && fs == Met(guarded, old(fs), old(turns))
      ensures old(turns) == [] ==> t == Spec.QUIET && turns == [] && fs == old(fs)
      ensures Cancel.Harmless(old(turns)) ==> Cancel.Harmless(turns) && fs == old(fs) && !t.fault
    {
      hide Kept;
      t := Spec.QUIET;
      if turns != [] {
        t := turns[0];
        turns := turns[1..];
        if t.next.Some? && Allowed(guarded, fs, t.next.value) {
          OthersKeep(Context(), origin, job, descriptor, phase, fs, t.next.value, RowsNow(), events, log);
          events := events + [Event(Spec.Step(false, fs, t.next.value), RowsNow())];
          fs := t.next.value;
        }
      }
    }

    /** The exclusive rename to the stage name. */
    method Stage() returns (ok: bool)
      requires Going() && Straight() && !phase.recovery && phase.item == Original && RowsNow() == Some(ReviewedRows())
      modifies this`fs, this`turns, this`events, this`phase
      ensures Going() && phase == if ok then Phase(Staged, false, false) else old(phase)
      ensures
        ok == (!Coming(old(turns)).fault && CanStage(request, job, Met(guarded, old(fs), old(turns))))
      ensures turns == Rest(old(turns))
      ensures old(turns) == [] ==>
        && turns == [] && ok == CanStage(request, job, old(fs))
        && fs == if ok then StagedFs(request, job, old(fs)) else old(fs)
      ensures Cancel.Harmless(old(turns)) ==>
        Cancel.Harmless(turns) && fs == if ok then StagedFs(request, job, old(fs)) else old(fs)
    {
      hide Kept, Sited, Paired, Balanced, OneOpen, Keyed, Rows;
      var t := Wait();
      var name := request.candidate.place.name;
      ok := !t.fault && CanRename(fs, Parent(), name, Parent(), job.stage);
      if ok {
        var next := Rename(fs, Parent(), name, Parent(), job.stage);
        StagingKeeps(Context(), origin, job, phase.idle, fs, events, log);
        events, phase := events + [Event(Spec.Step(true, fs, next), RowsNow())], Phase(Staged, false, false);
        fs := next;
      }
    }

    /** The exclusive rename back to the original name. */
    method PutBack() returns (ok: bool)
      requires Going() && Straight() && !phase.recovery && phase.item != Original && RowsNow() == Some(ReviewedRows())
      modifies this`fs, this`turns, this`events, this`phase, this`back
      ensures Going() && phase == if ok then Phase(Original, false, false) else old(phase)
      ensures back == Some(Meeting(Met(guarded, old(fs), old(turns)), Coming(old(turns)).fault))
      ensures ok == GoesBack(request, job, back.value)
      ensures fs == if ok then BackFs(request, job, back.value.fs) else back.value.fs
      ensures old(turns) == [] ==> turns == []
      ensures Cancel.Harmless(old(turns)) ==> Cancel.Harmless(turns) && back == Some(Meeting(old(fs), false))
    {
      hide Sited, Paired, Balanced, OneOpen, Keyed, Rows;
      var t := Wait();
      var name := request.candidate.place.name;
      back := Some(Meeting(fs, t.fault));
      ok := !t.fault && CanRename(fs, Parent(), job.stage, Parent(), name);
      assert !phase.idle by { hide Careful, WriteAhead, Sounds; }
      hide Kept;
      if ok {
        var next := Rename(fs, Parent(), job.stage, Parent(), name);
        PutBackKeeps(Context(), origin, job, phase.item, fs, events, log);
        events, phase := events + [Event(Spec.Step(true, fs, next), RowsNow())], Phase(Original, false, false);
        fs := next;
      }
    }

    /** `verify_staged` on the staged copy and the file that is kept. */
    method CompareCopy(keeper: Keeper) returns (same: bool)
      ensures same ==> SameContents(request.candidate, keeper)
      ensures keeper.signals == [] ==> same == SameContents(request.candidate, keeper)
    {
      var state := new Exact.WorkState(Exact.MAX_READ_BYTES, keeper.signals, keeper.pieces);
      same := Exact.VerifyStaged(state, CopyOf(request.candidate, keeper), keeper.retained);
    }

    /** The staged item is the reviewed object, with the reviewed contents. */
    method LookAtStaged() returns (ok: bool)
      requires Going() && Straight() && phase == Phase(Staged, false, false) && RowsNow() == Some(ReviewedRows())
      modifies this`fs, this`turns, this`events, store`operations
      ensures Going() && (ok ==> MeasuredAsReviewed(request, answers))
      ensures old(turns) == [] ==>
        turns == [] && fs == old(fs) && (ok <==> SeesObject(request, job, fs) && MeasuredAsReviewed(request, answers))
      ensures Cancel.Harmless(old(turns)) ==> Cancel.Harmless(turns) && fs == old(fs)
      ensures
        || store.operations == old(store.operations)
        || (job.id in old(store.operations) && store.operations == Marking(old(store.operations), job.id, Mutating))
      ensures ok ==> Held(old(turns), 3) && !Spec.TurnAt(old(turns), 2).cancelled
    {
      hide Kept, Sited, Paired, Balanced, OneOpen, Rows, Contents;
      ok := false;
      var t := Wait();
      var marked := store.Mark(job.id, Mutating, t.fault);
      if !marked { return; }
      t := Wait();
      var found := Stat(fs, Parent(), job.stage);
      if t.fault || found.None? { return; }
      t := Wait();
      if t.cancelled || t.fault || answers.staged.None? { return; }
      ok := SameObject(found.value.identity, request.candidate.identity)
        && Contents(answers.staged.value) == request.candidate.contents;
    }

    /** The staged item is what was reviewed, its hard links are closed, and its retained copy compares equal. */
    method VerifyStaged() returns (groups: Option<map<Key, Spec.LinkRemoval>>)
      requires Going() && Straight() && phase == Phase(Staged, false, false) && RowsNow() == Some(ReviewedRows())
      modifies this`fs, this`turns, this`events, store`operations
      ensures Going() && (groups.Some? ==> Verified(request, answers, groups.value))
      ensures old(turns) == [] ==> turns == [] && fs == old(fs) && (groups.Some? ==> SeesObject(request, job, fs))
      ensures
        var evident := StagedAsReviewed(request, answers) && SeesObject(request, job, fs);
        old(turns) == [] && Measurable(request, answers) && evident ==> groups.Some?
      ensures Cancel.Harmless(old(turns)) ==> Cancel.Harmless(turns) && fs == old(fs)
      ensures
        || store.operations == old(store.operations)
        || (job.id in old(store.operations) && store.operations == Marking(old(store.operations), job.id, Mutating))
      ensures groups.Some? ==> Held(old(turns), 3) && !Spec.TurnAt(old(turns), 2).cancelled
    {
      hide Going, Verified, Contents, SameContents, SeesObject, Metas, Closure.Closed, Closure.Objects;
      groups := None;
      var looked := LookAtStaged();
      if !looked { return; }
      if request.keeper.Some? {
        var same := CompareCopy(request.keeper.value);
        if !same { return; }
      }
      var closed := Closure.MeasureLinks(Metas(answers.staged.value));
      if closed.None? { return; }
      EvidenceHolds(request, answers, closed.value);
      return Some(Theorems.FromClosure(closed.value));
    }

    /** What is at the place native Trash reported, if it is the reviewed object. */
    method LookInTrash(place: Place) returns (identity: Option<Identity>)
      requires Going()
      modifies this`fs, this`turns, this`events
      ensures Going()
      ensures identity.Some? ==>
        SameObject(identity.value, request.candidate.identity) && Holding(fs, place, identity.value)
      ensures
        var found := Stat(old(fs), place.dir, place.name);
        old(turns) == [] ==>
          && turns == [] && fs == old(fs)
          && (identity.Some? <==> found.Some? && SameObject(found.value.identity, request.candidate.identity))
      ensures Cancel.Harmless(old(turns)) ==> Cancel.Harmless(turns) && fs == old(fs)
      ensures identity.Some? ==> !Coming(old(turns)).fault
    {
      hide Kept, Sited, Paired, Balanced, OneOpen, Keyed;
      identity := None;
      var t := Wait();
      var found := Stat(fs, place.dir, place.name);
      if t.fault || found.None? || !SameObject(found.value.identity, request.candidate.identity) { return; }
      identity := Some(found.value.identity);
    }

    /** `RetainedFile::validate`. */
    method ValidateKeeper(keeper: Keeper) returns (ok: bool)
      ensures ok == StillValid(keeper)
    {
      var state := new Exact.WorkState(0, [], []);
      var stop := state.Validate(keeper.last);
      ok := stop.None?;
    }

    /** The native Trash callback, and the check on what it returned. */
    method TrashStaged() returns (identity: Option<Identity>, place: Option<Place>)
      requires Going() && Straight() && phase == Phase(Staged, false, false) && RowsNow() == Some(ReviewedRows())
      modifies this`fs, this`turns, this`events, this`phase
      ensures Going() && !phase.recovery && phase.item != Original && !phase.idle
      ensures identity.Some? ==>
        && phase.item == Away && place.Some? && SameObject(identity.value, request.candidate.identity)
        && Holding(fs, place.value, identity.value)
      ensures old(turns) == [] ==>
        && turns == [] && (identity.Some? <==> TrashTakes(Context(), origin, request, answers, job, old(fs)))
        && (identity.Some? ==> answers.trash == Some(TrashReply(true, place.value, fs)))
      ensures Cancel.Harmless(old(turns)) ==>
        && Cancel.Harmless(turns)
        && (fs == old(fs) || (answers.trash.Some? && fs == answers.trash.value.next))
      ensures Coming(old(turns)).cancelled ==> identity.None? && fs in {old(fs), Met(guarded, old(fs), old(turns))}
      ensures identity.Some? && request.keeper.Some? ==> !Spec.TurnAt(old(turns), 1).cancelled
    {
      hide Kept, Sited, Paired, Balanced, OneOpen, Keyed, Rows, Met, Cancel.Harmless, Allowed, Safety.Reviewed;
      hide Held;
      identity, place := None, None;
      if answers.trash.None? { return; }
      var t := Wait();
      if t.cancelled { return; }
      if request.keeper.Some? {
        t := Wait();
        var still := ValidateKeeper(request.keeper.value);
        if t.cancelled || !still { return; }
      }
      var reply := answers.trash.value;
      if !TrashMay(Context(), origin, job, fs, reply) { return; }
      TrashKeeps(Context(), origin, job, fs, reply, events, log);
      events := events + [Event(Spec.Step(false, fs, reply.next), RowsNow())];
      phase := Phase(if Gone(Context(), origin, job, reply) then Away else Staged, false, false);
      fs := reply.next;
      if !reply.ok { return; }
      place := Some(reply.place);
      identity := LookInTrash(reply.place);
    }

    /** `mkdirat`. */
    method MakeDirectory() returns (ok: bool)
      requires Going() && Straight() && phase == Phase(Staged, false, false) && RowsNow() == Some(ReviewedRows())
      modifies this`fs, this`turns, this`events, this`phase
      ensures Going() && phase == Phase(Staged, ok, false) && NamesIn(fs, job.recovery) == map[]
      ensures ok ==> MadeFrom(fs)
      ensures old(turns) == [] ==>
        && turns == [] && ok == CanMakeDir(old(fs), Parent(), job.recoveryName, job.recovery)
        && (ok ==> fs == MakeDir(old(fs), Parent(), job.recoveryName, job.recovery, job.made))
      ensures turns == Rest(old(turns)) && (ok ==> !Coming(old(turns)).fault)
    {
      hide Sited, Paired, Balanced, OneOpen, Keyed, Rows, Placed, Careful, Ahead, Sounds, MakeDir;
      var t := Wait();
      assert NamesIn(fs, job.recovery) == map[];
      hide Kept;
      ok := !t.fault && CanMakeDir(fs, Parent(), job.recoveryName, job.recovery);
      if ok {
        var next := MakeDir(fs, Parent(), job.recoveryName, job.recovery, job.made);
        MakingKeeps(Context(), origin, job, fs, events, log);
        assert MadeFrom(next);
        events, phase := events + [Event(Spec.Step(true, fs, next), RowsNow())], Phase(Staged, true, false);
        fs := next;
      }
    }

    /** `made` is what `mkdirat` left. */
    ghost predicate MadeFrom(made: Fs) {
      exists before :: CanMakeDir(before, Parent(), job.recoveryName, job.recovery)
        && made == MakeDir(before, Parent(), job.recoveryName, job.recovery, job.made)
    }

    /** The directory was accepted as its creation accepts one, with other processes in between. */
    ghost predicate Accepted(made: Fs, seen: Fs, opening: Fs)
      reads this
    {
      MadeFrom(made) && Directory.Creates(Context(), Parent(), job.recoveryName, made, seen, opening, fs, descriptor)
    }

    /** `LeafRecovery::create`: the directory may be left behind even if it could not be verified. */
    method MakeRecovery() returns (ok: bool, identity: Identity)
      requires Going() && Straight() && phase == Phase(Staged, false, false) && RowsNow() == Some(ReviewedRows())
      modifies this`fs, this`turns, this`events, this`phase, this`descriptor
      ensures Going() && phase in {Phase(Staged, false, false), Phase(Staged, true, false)} && (ok ==> phase.recovery)
      ensures !ok ==> Straight()
      ensures Straight() ==> NamesIn(fs, job.recovery) == map[]
      ensures ok ==> VerifiedRecovery(job, fs, descriptor, identity)
      ensures ok ==> exists made, seen, opening :: Accepted(made, seen, opening)
      ensures old(turns) == [] ==>
        && turns == [] && Straight() && (ok <==> CanMakeRecovery(request, job, old(fs)))
        && (ok ==> fs == RecoveryFs(request, job, old(fs)))
      ensures ok ==> Held(old(turns), 4)
    {
      hide Kept, Sited, Paired, Balanced, OneOpen, Keyed, Rows, Allowed, Held, Coming, Rest, Met, Cancel.Harmless;
      ghost var coming := turns;
      ok, identity := false, request.candidate.identity;
      var made := MakeDirectory();
      if !made { return; }
      ghost var first := fs;
      var t := Wait();
      ghost var seen := fs;
      var found := Stat(fs, Parent(), job.recoveryName);
      if t.fault || found.None? { return; }
      identity := found.value.identity;
      t := Wait();
      ghost var opening := fs;
      if t.fault || !Named(fs, Parent(), job.recoveryName)
         || fs.dirs[Parent()][job.recoveryName] !in fs.dirs
      {
        return;
      }
      var target := fs.dirs[Parent()][job.recoveryName];
      RecoveryNameHolds(Context(), origin, job, fs, events, log);
      t := Wait();
      var now := FStat(fs, target);
      if t.fault || now.None? || !Directory.Owned(identity, now.value, job.euid) { return; }
      OpeningKeeps(Context(), origin, job, target, fs, events, log);
      descriptor := target;
      assert Accepted(first, seen, opening);
      HeldFour(coming);
      ok := true;
    }

    /** The directory `mkdirat` made is one nobody else writes names into. */
    lemma StraightIsSheltered()
      requires Going() && Straight()
      ensures Sheltered(Context(), origin, descriptor)
    {
      hide Kept;
    }

    /** With its recovery directory left alone, the removal took every reviewed alias. */
    ghost predicate AllGone()
      reads this`descriptor, this`log
    {
      Sheltered(Context(), origin, descriptor) ==> AllAliasesRemoved(answers, log)
    }

    /** The removal context, created, run and dropped. */
    method Walk(groups: map<Key, Spec.LinkRemoval>)
      returns (v: Spec.Verdict, next: Fs, coming: seq<Turn>, yielded: seq<seq<Name>>, counted: Spec.Removed,
               left: map<Key, Spec.LinkRemoval>, ghost s1: Spec.State)
      ensures (s1, v)
           == Spec.Remove(Opened(), Theorems.Start(fs, turns, listings, groups), Parent(), job.stage, [], true)
      ensures next == s1.fs && coming == s1.turns && yielded == s1.listings
      ensures counted == s1.removed && left == s1.groups
    {
      hide Spec.Remove;
      var context := new Engine.RemovalContext(Opened(), fs, turns, listings, groups);
      v := context.Remove(Parent(), job.stage, [], true);
      next, coming, yielded, left := context.fs, context.turns, context.listings, context.groups;
      counted, s1 := Spec.Removed(context.private, context.privateKnown, context.files), context.S();
    }

    /** The guarded removal of the staged tree. */
    method RunRemoval(groups: map<Key, Spec.LinkRemoval>) returns (ok: bool, private: nat, known: bool)
      requires Going() && phase == Phase(Staged, true, false) && RowsNow() == Some(ReviewedRows()) && log == []
      requires Verified(request, answers, groups) && (Straight() ==> NamesIn(fs, job.recovery) == map[])
      modifies this`fs, this`turns, this`listings, this`events, this`log, this`phase, this`removed, this`completed
      ensures Going() && phase.recovery && !phase.idle && removed.private == private && removed.privateKnown == known
      ensures ok ==> phase.item == Away && (Straight() ==> NamesIn(fs, job.recovery) == map[])
      ensures ok ==> AllGone()
      ensures var s0 := Theorems.Start(old(fs), old(turns), old(listings), groups);
        var (s1, v) := Spec.Remove(Opened(), s0, Parent(), job.stage, [], true);
        && fs == s1.fs && turns == s1.turns && |turns| <= |old(turns)| && log == s1.log
        && removed == s1.removed && completed == s1.completed
        && ok == (v.Fine? && Spec.Exhausted(s1.groups))
    {
      hide Kept, Sited, Spec.Remove, Verified, Paired, Balanced, OneOpen, Keyed, Spec.Exhausted, Sheltered, RowsOf;
      hide Runs.GroupsSound, Runs.Conserves, AllAliasesRemoved, Absorbed;
      VerifiedIsSound(request, answers, groups);
      ghost var s0 := Theorems.Start(fs, turns, listings, groups);
      var v, next, coming, yielded, counted, left;
      ghost var s1;
      v, next, coming, yielded, counted, left, s1 := Walk(groups);
      RemovalKeeps(Context(), origin, job, descriptor, events, s0, v, s1);
      events, log := events + Absorbed(s1.trace, Some(Context().manifest)), s1.log;
      phase := AfterRemoval(origin, job, v, s1.fs);
      fs, turns, listings := next, coming, yielded;
      private, known := counted.private, counted.privateKnown;
      removed, completed := s1.removed, s1.completed;
      ok := v.Fine? && Spec.Exhausted(left);
      if ok && Sheltered(Context(), origin, descriptor) { AliasesRemoved(request, answers, groups, s0, s1); }
    }

    /** `remove_empty`: the recovery directory goes only while it is the same one, and empty. */
    method DropRecovery(identity: Identity) returns (ok: bool)
      requires Going() && phase == Phase(Away, true, false) && RowsNow() == Some(ReviewedRows())
      requires Straight() ==> NamesIn(fs, job.recovery) == map[]
      modifies this`fs, this`turns, this`events, this`phase
      ensures Going() && phase == Phase(Away, !ok, false)
      ensures old(turns) == [] ==>
        && turns == [] && (ok <==> CanDrop(request, job, old(fs), identity))
        && (ok ==> fs == RemoveDir(old(fs), Parent(), job.recoveryName))
      ensures ok ==> Held(old(turns), 2)
    {
      hide Kept, Sited, Paired, Balanced, OneOpen, Keyed, Rows;
      ok := false;
      var t := Wait();
      var found := Stat(fs, Parent(), job.recoveryName);
      if t.fault || found.None? || !SameObject(identity, found.value.identity) { return; }
      t := Wait();
      if t.fault || !CanRemoveDir(fs, Parent(), job.recoveryName) { return; }
      var next := RemoveDir(fs, Parent(), job.recoveryName);
      DroppingKeeps(Context(), origin, job, descriptor, fs, events, log);
      events, phase := events + [Event(Spec.Step(true, fs, next), RowsNow())], Phase(Away, false, false);
      fs := next;
      ok := true;
    }

    /** The removal between its two database calls, then `remove_empty`. */
    method RemoveStaged(groups: map<Key, Spec.LinkRemoval>,
                        identity: Identity) returns (clean: bool, private: nat, known: bool)
      requires Going() && phase == Phase(Staged, true, false) && RowsNow() == Some(ReviewedRows()) && log == []
      requires Verified(request, answers, groups) && (Straight() ==> NamesIn(fs, job.recovery) == map[])
      modifies this`fs, this`turns, this`listings, this`events, this`log, this`phase, this`removed, this`completed
      ensures Going() && !phase.idle && (if clean then phase == Phase(Away, false, false) else phase.recovery)
      ensures clean ==> AllGone()
      ensures clean ==> removed.private == private && removed.privateKnown == known
      ensures old(turns) == [] ==>
        && turns == [] && (clean <==> RemovalFinishes(Opened(), request, job, old(fs), old(listings), groups, identity))
        && (clean ==> EndsFrom(Opened(), request, job, old(fs), old(listings), groups, fs, removed, completed))
      ensures clean ==>
        var s0 := Theorems.Start(Met(guarded, old(fs), old(turns)), Rest(old(turns)), old(listings), groups);
        !Coming(old(turns)).fault && !Coming(Spec.Remove(Opened(), s0, Parent(), job.stage, [], true).0.turns).fault
    {
      hide Going, Spec.Remove, AllAliasesRemoved, Verified, Rows, Sheltered, Coming, Rest, Met;
      clean, private, known := false, 0, true;
      var t := Wait();
      if t.fault { return; }
      clean, private, known := RunRemoval(groups);
      if !clean { return; }
      t := Wait();
      if t.fault { return false, private, known; }
      clean := DropRecovery(identity);
    }

    function Blank(): Receipt {
      Receipt(job.id, request.operation, Prepared, request.candidate.allocation, 0, 0, 0, None, false)
    }

    /** The receipt differs from the prepared one only where the operation writes to it. */
    ghost predicate Ours(r: Receipt) {
      r == Blank().(outcome := r.outcome, observed := r.observed, credited := r.credited, coins := r.coins,
                    trash := r.trash, canRestore := r.canRestore)
    }

    ghost predicate Booked()
      reads store
    {
      job.id in store.operations && store.operations[job.id].candidate == request.candidate
    }

    /** The final row of the operation. */
    ghost predicate Filed(r: Receipt)
      reads store
    {
      Booked() && store.operations[job.id].receipt == r && store.operations[job.id].state == Ended(r.outcome)
    }

    /** `finish_operation`, and the row it leaves. */
    method Conclude(receipt: Receipt, trashIdentity: Option<Identity>) returns (ok: bool)
      requires Going() && Booked() && Ours(receipt)
      modifies this`fs, this`turns, this`events, store`operations
      ensures Going() && Booked()
      ensures ok ==> Filed(receipt) && store.operations[job.id].trashIdentity == trashIdentity
      ensures old(turns) == [] ==> turns == [] && fs == old(fs) && ok
      ensures Cancel.Harmless(old(turns)) ==> Cancel.Harmless(turns) && fs == old(fs)
    {
      hide Kept, Sited;
      var t := Wait();
      ok := store.FinishOperation(receipt, trashIdentity, t.fault);
    }

    /** In a directory left alone, the item's name was that of the reviewed object. */
    ghost predicate ItemWasThere() {
      Parent() in guarded ==>
        origin.name in origin.Names() && origin.Names()[origin.name] == request.candidate.identity.Object()
    }

    /** The checks inside the manifest transaction: full revalidation, distinct rows, and a last look at the item. */
    method Revalidate() returns (ok: bool)
      requires Going() && Straight() && phase == Phase(Original, false, true)
      modifies this`fs, this`turns, this`events
      ensures Going() && (ok ==> Reviewed(request, answers) && ItemWasThere())
      ensures old(turns) == [] ==>
        turns == [] && fs == old(fs) && (ok <==> Reviewed(request, answers) && SeesItem(request, fs))
      ensures Cancel.Harmless(old(turns)) ==> Cancel.Harmless(turns) && fs == old(fs)
      ensures ok ==>
        Held(old(turns), 3) && !Spec.TurnAt(old(turns), 1).cancelled && !Spec.TurnAt(old(turns), 2).cancelled
    {
      hide Kept, Sited;
      ok := false;
      var t := Wait();
      if t.fault { return; }
      t := Wait();
      if t.cancelled || t.fault || answers.reviewed.None? { return; }
      if !DistinctPaths(answers.reviewed.value)
         || Contents(answers.reviewed.value) != request.candidate.contents
      {
        return;
      }
      t := Wait();
      if t.fault || t.cancelled || !SeesItem(request, fs) { return; }
      KeptNames(Context(), origin, job, descriptor, phase, fs, RowsNow(), events, log);
      ok := true;
    }

    /** The manifest transaction: one row per reviewed entry, committed together or not at all. */
    method Prepare() returns (ok: bool)
      requires Going() && Straight() && phase == Phase(Original, false, true)
      modifies this`fs, this`turns, this`events, store`manifest, store`parents
      ensures Going()
      ensures if ok then Reviewed(request, answers) && RowsNow() == Some(ReviewedRows()) && ItemWasThere() && Noted()
              else store.manifest == old(store.manifest)
      ensures old(turns) == [] ==>
        && turns == [] && fs == old(fs)
        && (ok <==> Commits(request, answers, old(fs), job.id in old(store.manifest) || job.id in old(store.parents)))
      ensures Cancel.Harmless(old(turns)) ==> Cancel.Harmless(turns) && fs == old(fs)
    {
      hide Kept, Sited, Rows, Contents, DistinctPaths;
      ok := Revalidate();
      if !ok { return; }
      var t := Wait();
      CommittingKeeps(Context(), origin, job, fs, RowsNow(), events, log);
      ok := store.CommitManifest(job.id, Rows(answers.reviewed.value), answers.ancestors, t.fault);
      if ok { events := events + [Event(Spec.Step(false, fs, fs), RowsNow())]; }
    }

    /** The ancestors are stored with the manifest. */
    predicate Noted()
      reads store
    {
      job.id in store.parents && store.parents[job.id] == answers.ancestors
    }

    /** The rows go only when nothing is left that they describe. */
    method Erase() returns (ok: bool)
      requires Going() && phase == Phase(Away, false, false) && RowsNow() == Some(ReviewedRows())
      modifies this`fs, this`turns, this`events, store`manifest
      ensures Going() && RowsNow() == if ok then None else Some(ReviewedRows())
      ensures old(turns) == [] ==> turns == [] && fs == old(fs) && ok
      ensures Cancel.Harmless(old(turns)) ==> Cancel.Harmless(turns) && fs == old(fs)
    {
      hide Kept, Sited, Rows;
      var t := Wait();
      ErasingKeeps(Context(), origin, job, descriptor, fs, events, log);
      ok := store.EraseManifest(job.id, t.fault);
      if ok { events := events + [Event(Spec.Step(false, fs, fs), RowsNow())]; }
    }

    /** What a receipt says beside the numbers of its accounting stays. */
    ghost predicate Renumbered(r: Receipt, receipt: Receipt) {
      r == receipt.(observed := r.observed, credited := r.credited, coins := r.coins)
    }

    /** A credit is for a finished permanent removal, within what was counted. */
    ghost predicate Earned(r: Receipt, private: nat, known: bool) {
      && (r.credited > 0 || r.coins > 0 ==> r.operation == Permanent && r.outcome == Deleted)
      && r.credited <= r.reported
      && (r.credited > 0 ==> known && r.credited <= private)
    }

    lemma TakenIsStorable(private: nat, known: bool, receipt: Receipt)
      requires Takes(request, answers, job.id, store.remainder, store.allocations, private, known)
      requires Booked() && receipt.id == job.id
      requires receipt.operation == Permanent && receipt.outcome == Deleted
      requires receipt.reported == request.candidate.allocation
      ensures var budget := BudgetOf(answers.before.value, answers.after);
        var low := if budget.Some? then budget.value.after else Maximum(answers.before.value);
        var credit := Credit(receipt.operation, receipt.outcome, receipt.reported, private, known, budget);
        && credit == CreditOf(request, answers, private, known)
        && store.Storable(answers.window, low, private, credit, receipt)
    {
      hide BudgetOf, Credit;
    }

    /** `accounting::finish` on an open window. */
    method CloseWindow(window: Window, private: nat, known: bool, receipt: Receipt) returns (ok: bool, result: Receipt)
      requires Going() && Booked() && Ours(receipt) && receipt.credited == receipt.coins == 0
      requires window.id in store.windows && store.windows[window.id].before == Maximum(window.samples)
      modifies this`fs, this`turns, this`events, store
      ensures Going() && Booked() && store.manifest == old(store.manifest) && store.parents == old(store.parents)
      ensures Renumbered(result, receipt) && Ours(result)
      ensures ok ==> Filed(result) && Earned(result, private, known)
      ensures old(turns) == [] ==> turns == [] && fs == old(fs)
      ensures old(turns) == [] && old(store.windows)[window.id].state == Open ==>
        var budget := BudgetOf(window.samples, answers.after);
        var low := if budget.Some? then budget.value.after else Maximum(window.samples);
        var credit := Credit(receipt.operation, receipt.outcome, receipt.reported, private, known, budget);
        old(store.Storable(window.id, low, private, credit, receipt)) ==> ok && result.credited == credit
    {
      hide Kept, Sited, Paired, Balanced, OneOpen;
      var t := Wait();
      ghost var remainder := store.remainder;
      assert remainder < COIN_BYTES by {
        RemainderIsSmall(store.allocations, store.earnings, store.collected, store.remainder, store.credited);
      }
      ok, result := store.Finish(window, answers.after, private, known, receipt, t.fault);
    }

    /** `accounting::finish`; if that fails, or there is no window, the receipt is filed without credit. */
    method Account(window: Option<Window>, private: nat, known: bool,
                   receipt: Receipt) returns (ok: bool, result: Receipt)
      requires Going() && Booked() && Ours(receipt) && receipt.credited == receipt.coins == 0
      requires window.Some? ==>
        window.value.id in store.windows && store.windows[window.value.id].before == Maximum(window.value.samples)
      modifies this`fs, this`turns, this`events, store
      ensures Going() && store.manifest == old(store.manifest) && store.parents == old(store.parents)
      ensures ok ==> Filed(result)
      ensures Renumbered(result, receipt) && Ours(result) && Earned(result, private, known)
      ensures result.credited > 0 ==> window.Some?
      ensures old(turns) == [] ==> turns == [] && fs == old(fs) && ok
      ensures old(turns) == [] && window.Some? && old(store.windows)[window.value.id].state == Open ==>
        var budget := BudgetOf(window.value.samples, answers.after);
        var low := if budget.Some? then budget.value.after else Maximum(window.value.samples);
        var credit := Credit(receipt.operation, receipt.outcome, receipt.reported, private, known, budget);
        old(store.Storable(window.value.id, low, private, credit, receipt)) ==> result.credited == credit
    {
      hide Going, BudgetOf, Credit;
      ok, result := false, receipt;
      if window.Some? {
        ok, result := CloseWindow(window.value, private, known, receipt);
        if ok { return; }
        result := result.(credited := 0, coins := 0);
      }
      ok := Conclude(result, None);
    }

    /** `accounting::begin`, before the first leaf goes. */
    method OpenWindow() returns (window: Option<Window>)
      requires Going()
      modifies this`fs, this`turns, this`events, store`windows
      ensures Going() && (Straight() ==> NamesIn(fs, job.recovery) == old(NamesIn(fs, job.recovery)))
      ensures window.Some? ==>
        window.value.id in store.windows && store.windows[window.value.id].before == Maximum(window.value.samples)
      ensures old(turns) == [] ==> turns == [] && fs == old(fs)
      ensures
        old(turns) == [] && old(WindowFree(store, answers)) ==>
          && window == Some(Window(answers.window, answers.domain, answers.before.value))
          && store.windows[answers.window].state == Open
    {
      hide Kept, Sited, Paired, Balanced, OneOpen;
      var t := Wait();
      window := store.Begin(answers.window, answers.domain, if t.fault then None else answers.before);
    }

    /** The permanent branch once the recovery directory is there. */
    method RemoveAndAccount(groups: map<Key, Spec.LinkRemoval>, identity: Identity) returns (ok: bool, receipt: Receipt)
      requires Going() && phase == Phase(Staged, true, false) && RowsNow() == Some(ReviewedRows()) && log == []
      requires request.operation == Permanent
      requires Verified(request, answers, groups) && (Straight() ==> NamesIn(fs, job.recovery) == map[]) && Booked()
      modifies this`fs, this`turns, this`listings, this`events, this`log, this`phase, this`removed, this`completed
      modifies store
      ensures Going() && !phase.idle && store.manifest == old(store.manifest) && store.parents == old(store.parents)
      ensures old(turns) == [] ==>
        && turns == [] && ok
        && (receipt.outcome == Deleted <==>
              RemovalFinishes(Opened(), request, job, old(fs), old(listings), groups, identity))
        && (receipt.outcome == Deleted ==>
              EndsFrom(Opened(), request, job, old(fs), old(listings), groups, fs, removed, completed))
      ensures if receipt.outcome == Deleted then phase == Phase(Away, false, false) && AllGone()
              else receipt.outcome in {Cancelled, Partial} && phase.recovery
      ensures ok ==> Filed(receipt)
      ensures Renumbered(receipt, Blank().(outcome := receipt.outcome))
      ensures Earned(receipt, removed.private, removed.privateKnown)
      ensures
        var (p, k) := (removed.private, removed.privateKnown);
        old(turns) == [] ==>
          Paid(request, answers, removed, receipt, old(Payable(store, request, answers, job.id, p, k)))
    {
      hide Going, Verified, AllGone, RemovalFinishes, EndsFrom, BudgetOf, Credit, CreditOf, Takes, LowOf;
      hide Met, Allowed, Coming, Rest, Held, Maximum, Spec.Remove;
      ghost var (free, remainder, allocations) := (WindowFree(store, answers), store.remainder, store.allocations);
      var window := OpenWindow();
      var clean, private, known := RemoveStaged(groups, identity);
      var t := Wait();
      receipt := Blank().(outcome := if clean then Deleted else if t.cancelled then Cancelled else Partial);
      if clean && free && Takes(request, answers, job.id, remainder, allocations, private, known) {
        TakenIsStorable(private, known, receipt);
      }
      ok, receipt := Account(window, private, known, receipt);
    }

    lemma PermanentAgrees(r: Receipt, p: Phase)
      requires request.operation == Permanent && Renumbered(r, Blank().(outcome := r.outcome)) && !p.idle
      requires r.credited <= r.reported && (r.credited > 0 || r.coins > 0 ==> r.outcome == Deleted)
      requires if r.outcome == Deleted then p ==
        Phase(Away, false, false) else r.outcome in {Cancelled, Partial} && p.recovery
      ensures Agrees(r, p) && Ours(r)
    {
    }

    lemma FailedAgrees(r: Receipt, p: Phase)
      requires request.operation == Permanent && r == Blank().(outcome := Outcome.Failed) && p.item == Staged && !p.idle
      ensures Agrees(r, p) && Ours(r)
    {
    }

    /** The permanent branch; `ended` if it returned early, without touching the staged item. */
    method RemovePermanently(groups: map<Key, Spec.LinkRemoval>) returns (result: Result, ended: bool)
      requires Going() && Straight() && phase == Phase(Staged, false, false) && RowsNow() == Some(ReviewedRows())
      requires log == []
      requires Verified(request, answers, groups) && Booked() && request.operation == Permanent
      modifies this`fs, this`turns, this`listings, this`events, this`log
      modifies this`phase, this`removed, this`completed, this`descriptor, store
      ensures Going() && !phase.idle && store.manifest == old(store.manifest) && store.parents == old(store.parents)
      ensures result.Ok? ==> Ours(result.receipt) && Filed(result.receipt) && Agrees(result.receipt, phase)
      ensures result.Ok? && result.receipt.outcome == Deleted ==> AllGone()
      ensures result.Ok? ==> if ended then result.receipt.outcome ==
        Outcome.Failed else result.receipt.outcome in {Deleted, Cancelled, Partial}
      ensures result.Ok? && result.receipt.outcome == Cancelled ==> phase.recovery
      ensures result.Ok? && result.receipt.credited > 0 ==>
        removed.privateKnown && result.receipt.credited <= removed.private
      ensures
        var (p, k) := (removed.private, removed.privateKnown);
        old(turns) == [] && result.Ok? ==>
          Paid(request, answers, removed, result.receipt, old(Payable(store, request, answers, job.id, p, k)))
      ensures old(turns) == [] ==>
        && turns == [] && result.Ok? && Straight()
        && (result.receipt.outcome == Deleted <==> RemovalGoes(Context(), request, job, old(fs), old(listings), groups))
        && (result.receipt.outcome == Deleted ==>
              EndsAs(Context(), request, job, old(fs), old(listings), groups, fs, removed, completed))
    {
      hide Going, Verified, AllGone, RemovalFinishes, RemovalGoes, VerifiedRecovery, CanMakeRecovery, RecoveryFs;
      hide EndsFrom;
      hide Agrees, Ours, Directory.Creates;
      GoesFirst(Context(), request, job, fs, listings, groups);
      ghost var before, names, quiet := fs, listings, turns == [];
      var made, identity := MakeRecovery();
      if made {
        if quiet { AnyIdentity(Context(), request, job, before, names, groups, identity); }
        var ok, receipt := RemoveAndAccount(groups, identity);
        PermanentAgrees(receipt, phase);
        result, ended := if ok then Ok(receipt) else Err, false;
      } else {
        var receipt := Blank().(outcome := Outcome.Failed);
        FailedAgrees(receipt, phase);
        var ok := Conclude(receipt, None);
        result, ended := if ok then Ok(receipt) else Err, true;
      }
    }

    /** The stored identity of the trashed item is that of the reviewed object. */
    ghost predicate TrashedIdentity()
      reads store
    {
      && job.id in store.operations && store.operations[job.id].trashIdentity.Some?
      && SameObject(store.operations[job.id].trashIdentity.value, request.candidate.identity)
    }

    /** Nothing happened since native Trash answered, and the stored place holds the object as stored. */
    ghost predicate InTrash(r: Receipt)
      reads this, store
    {
      && TrashedIdentity() && answers.trash.Some? && fs == answers.trash.value.next
      && r.trash == Some(answers.trash.value.place)
      && Holding(fs, answers.trash.value.place, store.operations[job.id].trashIdentity.value)
    }

    /** The rename back was tried, and it alone decided whether the item has its own name again. */
    ghost predicate Tried()
      reads this`back, this`phase
    {
      back.Some? && (phase.item == Original <==> GoesBack(request, job, back.value))
    }

    /** With nobody interfering, the rename back met the staged item, or what native Trash left. */
    ghost predicate Reverted(staged: Fs)
      reads this`back, this`fs
    {
      && back.Some? && !back.value.fault
      && (back.value.fs == staged || (answers.trash.Some? && back.value.fs == answers.trash.value.next))
      && fs == if CanGoBack(request, job, back.value.fs) then BackFs(request, job, back.value.fs) else back.value.fs
    }

    /** The Trash branch; a failure puts the item back if it can. */
    method TrashItem() returns (result: Result)
      requires Going() && Straight() && phase == Phase(Staged, false, false) && RowsNow() == Some(ReviewedRows())
      requires Booked() && request.operation == Trash
      modifies this`fs, this`turns, this`events, this`phase, this`back, store`operations
      ensures Going() && !phase.idle
      ensures result.Ok? ==> Ours(result.receipt) && Filed(result.receipt) && Agrees(result.receipt, phase)
      ensures result.Ok? && result.receipt.outcome == Trashed ==> TrashedIdentity()
      ensures old(turns) == [] ==>
        && turns == [] && result.Ok?
        && (result.receipt.outcome == Trashed <==> TrashTakes(Context(), origin, request, answers, job, old(fs)))
        && (result.receipt.outcome == Trashed ==> InTrash(result.receipt))
      ensures result.Ok? ==> result.receipt.outcome in {Trashed, Outcome.Failed}
      ensures result.Ok? && result.receipt.outcome == Outcome.Failed ==> Tried()
      ensures result.Ok? && result.receipt.outcome == Outcome.Failed && Cancel.Harmless(old(turns)) ==>
        Cancel.Harmless(turns) && Reverted(old(fs))
    {
      hide Going, TrashTakes, CanGoBack, BackFs, Cancel.Harmless, TrashMay;
      var identity, place := TrashStaged();
      var receipt := Blank().(trash := place);
      if identity.Some? {
        receipt := receipt.(outcome := Trashed, canRestore := true);
        var ok := Conclude(receipt, identity);
        return if ok then Ok(receipt) else Err;
      }
      var _ := PutBack();
      receipt := receipt.(outcome := Outcome.Failed);
      var ok := Conclude(receipt, None);
      return if ok then Ok(receipt) else Err;
    }

    /** Stop with the item where it is: before staging, or after it. */
    method GiveUp(putBack: bool, outcome: Option<Outcome>) returns (result: Result)
      requires Going() && Straight() && Booked() && !phase.recovery && phase.item != Away
      requires putBack ==> phase == Phase(Staged, false, false) && RowsNow() == Some(ReviewedRows())
      requires outcome.Some? ==> outcome.value in {Skipped, Cancelled}
      modifies this`fs, this`turns, this`events, this`phase, this`back, store`operations
      ensures Going() && Booked() && phase.idle == old(phase.idle) && phase.item != Away && !phase.recovery
      ensures result.Ok? ==> Ours(result.receipt) && Filed(result.receipt) && Agrees(result.receipt, phase)
      ensures result.Ok? ==> result.receipt.outcome in {Skipped, Cancelled} && result.receipt.credited == 0
      ensures result.Ok? && outcome.Some? ==> result.receipt.outcome == outcome.value
      ensures old(turns) == [] ==> turns == [] && result.Ok?
      ensures if putBack then Tried() else phase == old(phase) && back == old(back)
      ensures Cancel.Harmless(old(turns)) ==>
        && Cancel.Harmless(turns)
        && (putBack && CanGoBack(request, job, old(fs)) ==>
              phase.item == Original && fs == BackFs(request, job, old(fs)))
        && (!putBack ==> fs == old(fs))
    {
      hide Kept, Sited;
      if putBack {
        var _ := PutBack();
      }
      var t := Wait();
      var receipt := Blank().(outcome :=
        if outcome.Some? then outcome.value else if t.cancelled then Cancelled else Skipped);
      var ok := Conclude(receipt, None);
      return if ok then Ok(receipt) else Err;
    }

    /** The identity preflight, and opening the item's directory. */
    method Preflight() returns (ok: bool)
      requires Going()
      modifies this`fs, this`turns, this`events
      ensures Going()
      ensures old(turns) == [] ==>
        && turns == [] && fs == old(fs)
        && (ok <==> SeesItem(request, fs) && request.candidate.identity.device == request.rootDevice)
      ensures Cancel.Harmless(old(turns)) ==> Cancel.Harmless(turns) && fs == old(fs)
      ensures ok ==> Held(old(turns), 2)
    {
      hide Kept, Sited;
      var t := Wait();
      var found := Stat(fs, Parent(), request.candidate.place.name);
      if t.fault || found.None? || found.value.identity != request.candidate.identity
         || found.value.identity.device != request.rootDevice
      {
        return false;
      }
      t := Wait();
      return !t.fault;
    }

    /** `prepare_operation`: the operation's row, before anything else. */
    method Insert() returns (ok: bool)
      requires Going()
      modifies this`fs, this`turns, this`events, store`operations
      ensures Going() && (if ok then Booked() else store.operations == old(store.operations))
      ensures old(turns) == [] ==> turns == [] && fs == old(fs) && ok == (job.id !in old(store.operations))
      ensures Cancel.Harmless(old(turns)) ==> Cancel.Harmless(turns) && fs == old(fs)
    {
      hide Kept, Sited, Paired, Balanced, OneOpen;
      var t := Wait();
      ok := store.Prepare(request.candidate, Blank(), t.fault);
    }

    /** Staging and the second measurement; without evidence the item is put back and the operation ends. */
    method Secure() returns (groups: Option<map<Key, Spec.LinkRemoval>>, result: Result)
      requires Going() && Straight() && phase == Phase(Original, false, true) && RowsNow() == Some(ReviewedRows())
      requires Booked()
      modifies this`fs, this`turns, this`events, this`phase, this`back, store`operations
      ensures Going() && Booked()
      ensures if groups.Some? then phase == Phase(Staged, false, false) && Verified(request, answers, groups.value)
              else phase.item != Away && !phase.recovery
      ensures groups.None? && result.Ok? ==>
        Ours(result.receipt) && Filed(result.receipt) && Agrees(result.receipt, phase)
      ensures groups.None? && result.Ok? ==>
        result.receipt.outcome in {Skipped, Cancelled} && result.receipt.credited == 0
      ensures old(turns) == [] && Measurable(request, answers) ==>
        && turns == [] && (groups.Some? <==> Stages(request, answers, job, old(fs)))
        && if groups.Some? then fs == StagedFs(request, job, old(fs)) else result.Ok?
      ensures groups.None? ==> phase.idle || Tried()
      ensures Cancel.Harmless(old(turns)) ==>
        && Cancel.Harmless(turns)
        && if groups.Some? then CanStage(request, job, old(fs)) && fs == StagedFs(request, job, old(fs))
           else phase.item == Original && fs.dirs == old(fs).dirs
      ensures groups.Some? ==> Held(old(turns), 4) && !Spec.TurnAt(old(turns), 3).cancelled
    {
      hide Kept, Sited, Contents, Rows, DistinctPaths, SameContents;
      hide CanStage, StagedFs, SeesObject, Measurable, Agrees;
      groups, result := None, Err;
      ghost var before := fs;
      HeldOn(turns, 3);
      HeldOn(turns, 2);
      var staged := Stage();
      if !staged {
        result := GiveUp(false, Some(Skipped));
        return;
      }
      groups := VerifyStaged();
      if groups.None? {
        if Cancel.Harmless(turns) && CanStage(request, job, before) { StagedGoesBack(request, job, before); }
        result := GiveUp(true, None);
      }
    }

    /** Trash or removal of the staged item; `ended` if it returned early. */
    method Act(groups: map<Key, Spec.LinkRemoval>) returns (result: Result, ended: bool)
      requires Going() && Straight() && phase == Phase(Staged, false, false) && RowsNow() == Some(ReviewedRows())
      requires log == []
      requires Booked() && Verified(request, answers, groups)
      modifies this`fs, this`turns, this`listings, this`events, this`log
      modifies this`phase, this`back, this`removed, this`completed, this`descriptor, store
      ensures Going() && !phase.idle && store.manifest == old(store.manifest) && store.parents == old(store.parents)
      ensures result.Ok? ==> Ours(result.receipt) && Filed(result.receipt) && Agrees(result.receipt, phase)
      ensures result.Ok? && result.receipt.outcome == Deleted ==> AllGone()
      ensures result.Ok? && result.receipt.outcome == Trashed ==> TrashedIdentity()
      ensures result.Ok? && ended ==> result.receipt.outcome == Outcome.Failed
      ensures result.Ok? && result.receipt.credited > 0 ==>
        removed.privateKnown && result.receipt.credited <= removed.private
      ensures
        var (p, k) := (removed.private, removed.privateKnown);
        old(turns) == [] && result.Ok? ==>
          Paid(request, answers, removed, result.receipt, old(Payable(store, request, answers, job.id, p, k)))
      ensures old(turns) == [] ==>
        && turns == [] && result.Ok? && Straight()
        && (result.receipt.outcome == Trashed <==>
              request.operation == Trash && TrashTakes(Context(), origin, request, answers, job, old(fs)))
        && (result.receipt.outcome == Trashed ==> InTrash(result.receipt))
        && (result.receipt.outcome == Deleted <==>
              request.operation == Permanent && RemovalGoes(Context(), request, job, old(fs), old(listings), groups))
        && (result.receipt.outcome == Deleted ==>
              EndsAs(Context(), request, job, old(fs), old(listings), groups, fs, removed, completed))
      ensures result.Ok? ==>
        result.receipt.outcome != Skipped && (result.receipt.outcome == Cancelled ==> phase.recovery)
      ensures result.Ok? && result.receipt.outcome == Outcome.Failed && request.operation == Trash ==>
        Tried() && (Cancel.Harmless(old(turns)) ==> Cancel.Harmless(turns) && Reverted(old(fs)))
    {
      hide Going, RemovalGoes, TrashTakes, Verified, AllGone, EndsAs;
      ended := false;
      if request.operation == Trash {
        result := TrashItem();
      } else {
        result, ended := RemovePermanently(groups);
      }
    }

    /** `discard_candidate`, then the rows of a finished operation. */
    method Discard(finished: bool) returns (ok: bool)
      requires Going() && RowsNow() == Some(ReviewedRows()) && (finished ==> phase == Phase(Away, false, false))
      modifies this`fs, this`turns, this`events, store`manifest
      ensures Going() && RowsNow() == if ok && finished then None else Some(ReviewedRows())
      ensures old(turns) == [] ==> ok && fs == old(fs)
      ensures Cancel.Harmless(old(turns)) ==> Cancel.Harmless(turns) && fs == old(fs)
      ensures Coming(old(turns)).fault ==> !ok && RowsNow() == Some(ReviewedRows())
    {
      hide Kept, Sited;
      var t := Wait();
      ok := !t.fault;
      if ok && finished { ok := Erase(); }
    }

    /** Trash or removal of the staged item, and what is discarded after it. */
    method Complete(groups: map<Key, Spec.LinkRemoval>) returns (result: Result)
      requires Going() && Straight() && phase == Phase(Staged, false, false) && RowsNow() == Some(ReviewedRows())
      requires Booked() && Verified(request, answers, groups) && log == []
      modifies this`fs, this`turns, this`listings, this`events, this`log, this`phase, this`removed, this`completed
      modifies this`descriptor, this`back, store
      ensures Going() && !phase.idle && store.parents == old(store.parents)
      ensures result.Ok? ==> Ours(result.receipt) && Filed(result.receipt) && Agrees(result.receipt, phase)
      ensures result.Ok? && result.receipt.outcome == Deleted ==> AllGone()
      ensures result.Ok? && result.receipt.outcome == Trashed ==> TrashedIdentity()
      ensures RowsNow() ==
        if result.Ok? && result.receipt.outcome in {Deleted, Trashed} then None else Some(ReviewedRows())
      ensures result.Ok? && result.receipt.credited > 0 ==>
        removed.privateKnown && result.receipt.credited <= removed.private
      ensures
        var (p, k) := (removed.private, removed.privateKnown);
        old(turns) == [] && result.Ok? ==>
          Paid(request, answers, removed, result.receipt, old(Payable(store, request, answers, job.id, p, k)))
      ensures old(turns) == [] ==>
        && result.Ok? && Straight()
        && (result.receipt.outcome == Trashed ==> InTrash(result.receipt))
        && (result.receipt.outcome == Trashed <==>
              request.operation == Trash && TrashTakes(Context(), origin, request, answers, job, old(fs)))
        && (result.receipt.outcome == Deleted <==>
              request.operation == Permanent && RemovalGoes(Context(), request, job, old(fs), old(listings), groups))
        && (result.receipt.outcome == Deleted ==>
              EndsAs(Context(), request, job, old(fs), old(listings), groups, fs, removed, completed))
      ensures result.Ok? ==>
        result.receipt.outcome != Skipped && (result.receipt.outcome == Cancelled ==> phase.recovery)
      ensures result.Ok? && result.receipt.outcome == Outcome.Failed && request.operation == Trash ==>
        Tried() && (Cancel.Harmless(old(turns)) ==> Reverted(old(fs)))
    {
      hide Going, ReviewedRows, AllGone, RemovalGoes, TrashTakes, Verified, Ours, EndsAs;
      var ended;
      result, ended := Act(groups);
      if result.Err? || ended { return; }
      var discarded := Discard(result.receipt.outcome in {Deleted, Trashed});
      if !discarded { result := Err; }
    }

    /** Given up before Trash or removal, with nothing of the item gone. */
    predicate GivenUp(r: Receipt, p: Phase) { r.outcome == Skipped || (r.outcome == Cancelled && !p.recovery) }

    /** An operation that gave up, or whose Trash failed: where the item is. */
    ghost predicate Returns(r: Receipt, before: Fs, alone: bool)
      reads this`back, this`phase, this`fs
    {
      && (GivenUp(r, phase) ==> (phase.idle || Tried()) && (alone ==> phase.item == Original && fs.dirs == before.dirs))
      && (r.outcome == Outcome.Failed && request.operation == Trash ==>
            Tried() && (alone && TrashLeaves(request, answers, job, before) ==>
              phase.item == Original && NamesIn(fs, Parent()) == NamesIn(before, Parent())))
    }

    /** The item was given up. */
    lemma GivenReturns(r: Receipt, before: Fs, alone: bool)
      requires r.outcome in {Skipped, Cancelled} && (phase.idle || Tried())
      requires alone ==> phase.item == Original && fs.dirs == before.dirs
      ensures Returns(r, before, alone)
    {
    }

    lemma ReturnsAfter(r: Receipt, first: Fs, x: bool, second: Fs, y: bool)
      requires Returns(r, second, y) && (x ==> y && second == first)
      ensures Returns(r, first, x)
    {
    }

    /** Trash or removal was tried. */
    lemma ActedReturns(r: Receipt, before: Fs, staged: Fs, alone: bool)
      requires r.outcome != Skipped && (r.outcome == Cancelled ==> phase.recovery)
      requires r.outcome == Outcome.Failed && request.operation == Trash ==> Tried() && (alone ==> Reverted(staged))
      requires alone ==> CanStage(request, job, before) && staged == StagedFs(request, job, before)
      ensures Returns(r, before, alone)
    {
      if alone && r.outcome == Outcome.Failed && request.operation == Trash
         && TrashLeaves(request, answers, job, before)
      {
        TrashedGoesBack(request, answers, job, before, back.value.fs);
      }
    }

    /** How an undisturbed operation ends once its manifest is committed. */
    ghost predicate Undisturbed(result: Result, before: Fs, names: seq<seq<Name>>)
      reads this, store
    {
      && result.Ok? && Straight()
      && (result.receipt.outcome == Trashed ==> InTrash(result.receipt))
      && (result.receipt.outcome == Trashed <==> Trashes(Context(), origin, request, answers, job, before))
      && (result.receipt.outcome == Deleted <==> Removes(Context(), request, answers, job, before, names))
      && (result.receipt.outcome == Deleted ==>
            EndsWhole(Context(), request, answers, job, before, names, fs, removed, completed))
    }

    /** Staging, and Trash or removal. */
    method Carry() returns (result: Result)
      requires Going() && Straight() && phase == Phase(Original, false, true) && RowsNow() == Some(ReviewedRows())
      requires log == []
      requires Booked() && Authorized(request)
      modifies this`fs, this`turns, this`listings, this`events, this`log
      modifies this`phase, this`back, this`removed, this`completed, this`descriptor, store
      ensures Going() && store.parents == old(store.parents)
      ensures result.Ok? ==> Ours(result.receipt) && Filed(result.receipt) && Agrees(result.receipt, phase)
      ensures result.Ok? && result.receipt.outcome == Deleted ==> AllGone()
      ensures phase.item == Away || phase.recovery ==> StagedAsReviewed(request, answers)
      ensures result.Ok? && result.receipt.outcome == Trashed ==> TrashedIdentity()
      ensures RowsNow() ==
        if result.Ok? && result.receipt.outcome in {Deleted, Trashed} then None else Some(ReviewedRows())
      ensures result.Ok? && result.receipt.credited > 0 ==>
        removed.privateKnown && result.receipt.credited <= removed.private
      ensures result.Ok? ==> Returns(result.receipt, old(fs), Cancel.Harmless(old(turns)))
      ensures
        var (p, k) := (removed.private, removed.privateKnown);
        old(turns) == [] && Measurable(request, answers) && result.Ok? ==>
          Paid(request, answers, removed, result.receipt, old(Payable(store, request, answers, job.id, p, k)))
      ensures old(turns) == [] && Measurable(request, answers) ==> Undisturbed(result, old(fs), old(listings))
    {
      hide Going, ReviewedRows, AllGone, StagedAsReviewed, Contents, RemovalGoes, TrashTakes, Measurable, Removes;
      hide Stages, StagedFs, EndsAs, CanStage, Returns, Tried, Reverted, Cancel.Harmless, Met, Ours, Agrees;
      hide Paid, Payable;
      ghost var before, names := fs, listings;
      RemovesFirst(Context(), request, answers, job, before, names);
      var groups;
      groups, result := Secure();
      if groups.None? {
        if result.Ok? {
          GivenReturns(result.receipt, before, Cancel.Harmless(old(turns)));
          NothingPaid(request, answers, removed, result.receipt);
        }
        return;
      }
      if Stages(request, answers, job, before) && request.operation == Permanent {
        RemovesExactly(Context(), request, answers, job, before, names, groups.value);
      }
      StagesFirst(request, answers, job, before);
      ghost var staged, alone := fs, Cancel.Harmless(old(turns));
      result := Complete(groups.value);
      if result.Ok? { ActedReturns(result.receipt, before, staged, alone); }
    }

    /** Everything after the manifest is committed. */
    method Perform() returns (result: Result)
      requires Going() && Straight() && phase == Phase(Original, false, true) && RowsNow() == Some(ReviewedRows())
      requires log == []
      requires Booked() && Authorized(request)
      modifies this`fs, this`turns, this`listings, this`events, this`log
      modifies this`phase, this`back, this`removed, this`completed, this`descriptor, store
      ensures Going() && store.parents == old(store.parents)
      ensures result.Ok? ==> Ours(result.receipt) && Filed(result.receipt) && Agrees(result.receipt, phase)
      ensures result.Ok? && result.receipt.outcome == Deleted ==> AllGone()
      ensures phase.item == Away || phase.recovery ==> StagedAsReviewed(request, answers)
      ensures result.Ok? && result.receipt.outcome == Trashed ==> TrashedIdentity()
      ensures RowsNow() ==
        if result.Ok? && result.receipt.outcome in {Deleted, Trashed} then None else Some(ReviewedRows())
      ensures result.Ok? && result.receipt.credited > 0 ==>
        removed.privateKnown && result.receipt.credited <= removed.private
      ensures result.Ok? ==> Returns(result.receipt, old(fs), Cancel.Harmless(old(turns)))
      ensures
        var (p, k) := (removed.private, removed.privateKnown);
        old(turns) == [] && Measurable(request, answers) && result.Ok? ==>
          Paid(request, answers, removed, result.receipt, old(Payable(store, request, answers, job.id, p, k)))
      ensures old(turns) == [] && Measurable(request, answers) ==> Undisturbed(result, old(fs), old(listings))
      ensures Coming(old(turns)).cancelled ==>
        phase.idle && phase.item == Original && (result.Ok? ==> result.receipt.outcome == Cancelled)
    {
      hide Going, ReviewedRows, AllGone, StagedAsReviewed, Measurable, Undisturbed, Returns, Tried, Ours, Agrees;
      hide Paid, Payable, Met, Cancel.Harmless;
      ghost var before := fs;
      var t := Wait();
      if t.cancelled {
        result := GiveUp(false, Some(Cancelled));
        if result.Ok? {
          GivenReturns(result.receipt, before, Cancel.Harmless(old(turns)));
          NothingPaid(request, answers, removed, result.receipt);
        }
        return;
      }
      ghost var (later, alone) := (fs, Cancel.Harmless(turns));
      result := Carry();
      if result.Ok? { ReturnsAfter(result.receipt, before, Cancel.Harmless(old(turns)), later, alone); }
    }

    /** The manifest, and everything after it. */
    method Proceed() returns (result: Result)
      requires Going() && Straight() && phase == Phase(Original, false, true) && log == []
      requires Booked() && Authorized(request)
      modifies this`fs, this`turns, this`listings, this`events, this`log
      modifies this`phase, this`back, this`removed, this`completed, this`descriptor, store
      ensures Going()
      ensures result.Ok? ==> Ours(result.receipt) && Filed(result.receipt) && Agrees(result.receipt, phase)
      ensures result.Ok? && result.receipt.outcome == Deleted ==> AllGone()
      ensures !phase.idle ==> Justified(request, answers) && ItemWasThere() && Noted()
      ensures phase.item == Away || phase.recovery ==> StagedAsReviewed(request, answers)
      ensures result.Ok? && result.receipt.outcome == Trashed ==> TrashedIdentity()
      ensures !phase.idle ==>
        RowsNow() == if result.Ok? && result.receipt.outcome in {Deleted, Trashed} then None else Some(ReviewedRows())
      ensures result.Ok? ==> Returns(result.receipt, old(fs), Cancel.Harmless(old(turns)))
      ensures result.Ok? && result.receipt.credited > 0 ==>
        removed.privateKnown && result.receipt.credited <= removed.private
      ensures
        var (p, k) := (removed.private, removed.privateKnown);
        old(turns) == [] && Measurable(request, answers) && result.Ok? ==>
          Paid(request, answers, removed, result.receipt, old(Payable(store, request, answers, job.id, p, k)))
      ensures
        var commits :=
          Commits(request, answers, old(fs), job.id in old(store.manifest) || job.id in old(store.parents));
        old(turns) == [] && Measurable(request, answers) ==>
          if commits then Undisturbed(result, old(fs), old(listings))
          else result.Ok? && Straight() && result.receipt.outcome in {Skipped, Cancelled}
    {
      hide Going, AllGone, StagedAsReviewed, Ours, Agrees, Contents, Rows, DistinctPaths, Undisturbed;
      hide Measurable, SeesItem, Metas, Reviewed, Returns, Paid, Payable;
      ghost var before := fs;
      var prepared := Prepare();
      if !prepared {
        result := GiveUp(false, None);
        if result.Ok? {
          GivenReturns(result.receipt, before, Cancel.Harmless(old(turns)));
          NothingPaid(request, answers, removed, result.receipt);
        }
        return;
      }
      ghost var (later, alone) := (fs, Cancel.Harmless(turns));
      result := Perform();
      if result.Ok? { ReturnsAfter(result.receipt, before, Cancel.Harmless(old(turns)), later, alone); }
    }

    /**
     * `execute_inner`.  However it ends and whatever other processes did: the
     * receipt agrees with where the item is, the rows are erased only for a
     * finished removal or Trash, and only a finished permanent removal of
     * exactly the reviewed contents is credited, at most the private bytes the
     * removal counted.  Every change was safe, and every moment write-ahead,
     * unless somebody pointed the recovery name elsewhere before it was opened;
     * in an item's directory left alone nobody can.  An item that was not
     * trashed or removed is put back: it has its own name again unless the
     * rename back failed or could not be done, and with nobody interfering
     * every name is what it was, however the user cancels.  Undisturbed, it
     * trashes or removes the item if and only if every condition for that
     * holds.
     */
    method Execute() returns (result: Result)
      requires Going() && Straight() && phase == Phase(Original, false, true) && events == [] && log == []
      modifies this`fs, this`turns, this`listings, this`events, this`log
      modifies this`phase, this`back, this`removed, this`completed, this`descriptor, store
      ensures Going()
      ensures result.Ok? ==> Ours(result.receipt) && Filed(result.receipt) && Agrees(result.receipt, phase)
      ensures result.Ok? && result.receipt.outcome == Deleted ==> AllGone()
      ensures !phase.idle ==> Justified(request, answers) && ItemWasThere() && Noted()
      ensures phase.item == Away || phase.recovery ==> StagedAsReviewed(request, answers)
      ensures result.Ok? && result.receipt.outcome == Trashed ==> TrashedIdentity()
      ensures !phase.idle ==>
        RowsNow() == if result.Ok? && result.receipt.outcome in {Deleted, Trashed} then None else Some(ReviewedRows())
      ensures result.Ok? ==> Returns(result.receipt, old(fs), Cancel.Harmless(old(turns)))
      ensures Forbidden(request) ==> result.Err? && phase.idle && store.operations == old(store.operations)
      ensures result.Ok? && result.receipt.credited > 0 ==>
        removed.privateKnown && result.receipt.credited <= removed.private
      ensures
        var (p, k) := (removed.private, removed.privateKnown);
        old(turns) == [] && Measurable(request, answers) && result.Ok? ==>
          Paid(request, answers, removed, result.receipt, old(Payable(store, request, answers, job.id, p, k)))
      ensures
        var opens := Opens(request, old(fs), job.id in old(store.operations));
        var commits :=
          Commits(request, answers, old(fs), job.id in old(store.manifest) || job.id in old(store.parents));
        old(turns) == [] && Measurable(request, answers) ==>
          && (result.Ok? <==> opens) && Straight()
          && (result.Ok? && result.receipt.outcome == Trashed ==> InTrash(result.receipt))
          && (result.Ok? && result.receipt.outcome == Trashed <==>
                opens && commits && Trashes(Context(), origin, request, answers, job, old(fs)))
          && (result.Ok? && result.receipt.outcome == Deleted <==>
                opens && commits && Removes(Context(), request, answers, job, old(fs), old(listings)))
          && (result.Ok? && result.receipt.outcome == Deleted ==>
                EndsWhole(Context(), request, answers, job, old(fs), old(listings), fs, removed, completed))
      ensures Coming(old(turns)).cancelled ==>
        result.Err? && phase.idle && store.operations == old(store.operations)
    {
      hide Going, AllGone, StagedAsReviewed, Ours, Agrees, Contents, Rows, DistinctPaths;
      hide Trashes, Removes, Measurable, SeesItem, Metas, InTrash, Reviewed, EndsWhole, Returns, Paid, Payable;
      ghost var before := fs;
      var t := Wait();
      if t.cancelled || !Authorized(request) { return Err; }
      var ready := Preflight();
      if !ready { return Err; }
      var inserted := Insert();
      if !inserted { return Err; }
      ghost var (later, alone) := (fs, Cancel.Harmless(turns));
      result := Proceed();
      if result.Ok? { ReturnsAfter(result.receipt, before, Cancel.Harmless(old(turns)), later, alone); }
    }
  }
}
