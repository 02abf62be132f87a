/** Which applications are running: the bounded collection of bundle identifiers, and the gate it feeds. */
module Activity {
  import opened Prelude
  import Utf8

  const MAX_PROCESSES := 4096
  const MAX_PATH_BYTES := 4096
  const MAX_BUNDLES := 1024
  const MAX_IDENTIFIER_BYTES := 1024

  /** A directory by its components from the root. */
  type Dir = seq<string>

  datatype Executable = Executable(absolute: bool, path: Dir, bytes: nat)

  /** What reading a bundle's property list yields. */
  datatype Reading = Failed | Missing | Found(identifier: string)

  // ---- Sorted sets of directories ---------------------------------------

  predicate LessName(a: string, b: string) {
    b != [] && (a == [] || a[0] < b[0] || (a[0] == b[0] && LessName(a[1..], b[1..])))
  }

  predicate Less(a: Dir, b: Dir) {
    b != [] && (a == [] || LessName(a[0], b[0]) || (a[0] == b[0] && Less(a[1..], b[1..])))
  }

  lemma {:induction false} LessNameOrders(a: string, b: string, c: string)
    ensures !LessName(a, a) && (LessName(a, b) || a == b || LessName(b, a))
    ensures LessName(a, b) && LessName(b, c) ==> LessName(a, c)
    decreases |a| + |b| + |c|
  {
    if a != [] || b != [] || c != [] {
      LessNameOrders(if a == [] then a else a[1..], if b == [] then b else b[1..], if c == [] then c else c[1..]);
      assert a != [] && b != [] && a[0] == b[0] && a[1..] == b[1..] ==> a == [a[0]] + a[1..] && b == [b[0]] + b[1..];
    }
  }

  lemma {:induction false} LessOrders(a: Dir, b: Dir, c: Dir)
    ensures !Less(a, a) && (Less(a, b) || a == b || Less(b, a))
    ensures Less(a, b) && Less(b, c) ==> Less(a, c)
    decreases |a| + |b| + |c|
  {
    if a != [] || b != [] || c != [] {
      LessOrders(if a == [] then a else a[1..], if b == [] then b else b[1..], if c == [] then c else c[1..]);
      LessNameOrders(if a == [] then [] else a[0], if b == [] then [] else b[0], if c == [] then [] else c[0]);
      assert a != [] && b != [] && a[0] == b[0] && a[1..] == b[1..] ==> a == [a[0]] + a[1..] && b == [b[0]] + b[1..];
      hide LessName;
    }
  }

  predicate Sorted(s: seq<Dir>) { forall i, j :: 0 <= i < j < |s| ==> Less(s[i], s[j]) }

  function SetOf(s: seq<Dir>): set<Dir> { set d | d in s }

  lemma {:induction false} SortedIsDistinct(s: seq<Dir>)
    requires Sorted(s)
    ensures |SetOf(s)| == |s|
  {
    if s != [] {
      var init, last := s[..|s| - 1], s[|s| - 1];
      SortedIsDistinct(init);
      LessOrders(last, last, last);
      assert last !in init;
      assert SetOf(s) == SetOf(init) + {last};
    }
  }

  /** `BTreeSet::insert`. */
  method Insert(s: seq<Dir>, d: Dir) returns (r: seq<Dir>)
    requires Sorted(s)
    ensures Sorted(r) && SetOf(r) == SetOf(s) + {d}
  {
    var i := 0;
    while i < |s| && Less(s[i], d)
      invariant 0 <= i <= |s| && forall k :: 0 <= k < i ==> Less(s[k], d)
    {
      i := i + 1;
    }
    if i < |s| && s[i] == d { return s; }
    r := s[..i] + [d] + s[i..];
    forall k | i <= k < |s| ensures Less(d, s[k]) {
      LessOrders(s[i], d, d);
      LessOrders(d, s[i], s[k]);
    }
  }

  // ---- Bundles ----------------------------------------------------------

  predicate IsAppLetter(c: char, lower: char, upper: char) { c == lower || c == upper }

  /** The extension is `app` in any case, and something precedes its dot. */
  predicate IsAppName(n: string) {
    && |n| >= 5 && n[|n| - 4] == '.'
    && IsAppLetter(n[|n| - 3], 'a', 'A') && IsAppLetter(n[|n| - 2], 'p', 'P') && IsAppLetter(n[|n| - 1], 'p', 'P')
  }

  /** A name is split at its last dot: what follows it is `app` in any case, and something precedes it. */
  lemma AppNames(stem: string, extension: string)
    requires '.' !in extension
    ensures IsAppName(stem + "." + extension) <==> stem != [] && Lower(extension) == "app"
    ensures !IsAppName(extension)
  {
    var n := stem + "." + extension;
    assert n[|stem|] == '.' && forall i :: 0 <= i < |extension| ==> n[|stem| + 1 + i] == extension[i];
    if |extension| == 3 {
      assert Lower(extension) == [LowerChar(extension[0]), LowerChar(extension[1]), LowerChar(extension[2])];
    }
  }

  predicate IsBundle(d: Dir) { d != [] && IsAppName(d[|d| - 1]) }

  /** The enclosing application directories of one executable. */
  function BundlesOf(path: Dir): set<Dir> { BundlesFrom(path, 0) }

  function BundlesFrom(path: Dir, from: nat): set<Dir> {
    set i | from <= i < |path| && IsBundle(path[..i]) :: path[..i]
  }

  lemma BundlesStep(path: Dir, i: nat)
    requires i < |path|
    ensures BundlesFrom(path, i) == BundlesFrom(path, i + 1) + if IsBundle(path[..i]) then {path[..i]} else {}
    ensures BundlesFrom(path, |path|) == {}
    ensures BundlesFrom(path, i) <= BundlesOf(path)
  {
  }

  function AllBundles(executables: seq<Executable>): set<Dir> {
    set k, i | 0 <= k < |executables| && 0 <= i < |executables[k].path| && IsBundle(executables[k].path[..i]) ::
      executables[k].path[..i]
  }

  predicate Bounded(e: Executable) { e.bytes <= MAX_PATH_BYTES && e.absolute }

  predicate ValidIdentifier(s: string) {
    && s != [] && s != "." && s != ".." && Utf8Length(s) <= MAX_IDENTIFIER_BYTES
    && forall i :: 0 <= i < |s| ==> s[i] != '/' && s[i] as int != 0
  }

  /** The limits on an identifier, on its bytes. */
  lemma IdentifierBytes(s: string)
    ensures ValidIdentifier(s) <==>
      && s !in {"", ".", ".."} && |Utf8.Encode(s)| <= MAX_IDENTIFIER_BYTES
      && 0 !in Utf8.Encode(s) && 0x2F !in Utf8.Encode(s)
  {
    Utf8.AsciiIn(s, 0);
    Utf8.AsciiIn(s, 0x2F);
  }

  function ReadingOf(readings: map<Dir, Reading>, d: Dir): Reading { if d in readings then readings[d] else Missing }

  /** The valid identifiers of some bundles. */
  function Identifiers(readings: map<Dir, Reading>, bundles: set<Dir>): set<string> {
    set d | d in bundles && ReadingOf(readings, d).Found? && ValidIdentifier(ReadingOf(readings, d).identifier) ::
      ReadingOf(readings, d).identifier
  }

  /** What the collection needs to be complete. */
  predicate Collectable(executables: seq<Executable>, readings: map<Dir, Reading>) {
    && |executables| <= MAX_PROCESSES && (forall e :: e in executables ==> Bounded(e))
    && |AllBundles(executables)| <= MAX_BUNDLES
    && forall d :: d in AllBundles(executables) ==> ReadingOf(readings, d) != Failed
  }

  /** Cancellation, as the coming checkpoints see it. */
  class Checkpoints {
    var signals: seq<bool>
    ghost var looks: nat   // checkpoints so far
    ghost var met: nat     // cancellations met so far

    constructor (signals: seq<bool>)
      ensures this.signals == signals && met == looks == 0
    {
      this.signals, met, looks := signals, 0, 0;
    }

    /** Nobody will cancel. */
    ghost predicate Quiet()
      reads this
    {
      true !in signals
    }

    method Cancelled() returns (c: bool)
      modifies this
      ensures c == (old(signals) != [] && old(signals)[0])
      ensures signals == if old(signals) == [] then [] else old(signals)[1..]
      ensures looks == old(looks) + 1 && met == old(met) + if c then 1 else 0
      ensures old(Quiet()) ==> !c && Quiet()
    {
      c := signals != [] && signals[0];
      looks, met := looks + 1, if c then met + 1 else met;
      if signals != [] { signals := signals[1..]; }
    }
  }

  /** One checkpoint for every executable, and one for every directory around it. */
  function Steps(executables: seq<Executable>): nat {
    if executables == [] then 0
    else Steps(executables[..|executables| - 1]) + 1 + |executables[|executables| - 1].path|
  }

  lemma StepsOn(executables: seq<Executable>, k: nat)
    requires k < |executables|
    ensures Steps(executables[..k + 1]) == Steps(executables[..k]) + 1 + |executables[k].path|
    ensures Steps(executables[..0]) == 0
  {
    assert executables[..k + 1][..k] == executables[..k];
  }

  lemma OneIn(path: Dir, i: nat, bundles: seq<Dir>, known: set<Dir>)
    requires i < |path| && known == SetOf(bundles) + BundlesFrom(path, i + 1)
    ensures known + (if IsBundle(path[..i]) then {path[..i]} else {}) == SetOf(bundles) + BundlesFrom(path, i)
    ensures IsBundle(path[..i]) && |known + {path[..i]}| > MAX_BUNDLES ==>
      |SetOf(bundles) + BundlesOf(path)| > MAX_BUNDLES
  {
    BundlesStep(path, i);
    hide BundlesFrom, IsBundle;
    if IsBundle(path[..i]) { SubsetSize(known + {path[..i]}, SetOf(bundles) + BundlesOf(path)); }
  }

  /** One directory on the way up: inserted if it is an application's, is not there, and fits. */
  method Include(bundles: seq<Dir>, directory: Dir) returns (ok: bool, r: seq<Dir>)
    requires Sorted(bundles) && |bundles| <= MAX_BUNDLES
    ensures ok ==>
      && Sorted(r) && |r| <= MAX_BUNDLES
      && SetOf(r) == SetOf(bundles) + if IsBundle(directory) then {directory} else {}
    ensures !ok ==> r == bundles && IsBundle(directory) && |SetOf(bundles) + {directory}| > MAX_BUNDLES
  {
    hide Less, IsBundle, SetOf, Sorted;
    ok, r := true, bundles;
    InSet(bundles, directory);
    if IsBundle(directory) && directory !in bundles {
      if |bundles| >= MAX_BUNDLES {
        TooMany(bundles, directory, SetOf(bundles) + {directory});
        return false, bundles;
      }
      r := Insert(bundles, directory);
      OneMore(bundles, r, directory);
    }
  }

  /** The application directories around one executable, inserted while they fit. */
  method AddBundles(path: Dir, bundles: seq<Dir>, checkpoints: Checkpoints) returns (ok: bool, r: seq<Dir>)
    requires Sorted(bundles) && |bundles| <= MAX_BUNDLES
    modifies checkpoints
    ensures ok ==> Sorted(r) && |r| <= MAX_BUNDLES && SetOf(r) == SetOf(bundles) + BundlesOf(path)
    ensures ok ==> checkpoints.met == old(checkpoints.met) && checkpoints.looks == old(checkpoints.looks) + |path|
    ensures old(checkpoints.Quiet()) ==>
      checkpoints.Quiet() && (ok <==> |SetOf(bundles) + BundlesOf(path)| <= MAX_BUNDLES)
  {
    hide Less, IsBundle, BundlesFrom, BundlesOf, SetOf, Sorted, Checkpoints.Quiet;
    ok, r := false, bundles;
    var i := |path|;
    NoneYet(path, bundles);
    while i > 0
      invariant 0 <= i <= |path| && Sorted(r) && |r| <= MAX_BUNDLES
      invariant SetOf(r) == SetOf(bundles) + BundlesFrom(path, i)
      invariant checkpoints.met == old(checkpoints.met) && (old(checkpoints.Quiet()) ==> checkpoints.Quiet())
      invariant checkpoints.looks == old(checkpoints.looks) + |path| - i
    {
      i := i - 1;
      OneIn(path, i, bundles, SetOf(r));
      var cancelled := checkpoints.Cancelled();
      if cancelled { return; }
      var added;
      added, r := Include(r, path[..i]);
      if !added { return; }
    }
    SortedIsDistinct(r);
    ok := true;
  }

  lemma NoneYet(path: Dir, bundles: seq<Dir>)
    ensures SetOf(bundles) + BundlesFrom(path, |path|) == SetOf(bundles) && BundlesFrom(path, 0) == BundlesOf(path)
  {
  }

  lemma InSet(s: seq<Dir>, d: Dir)
    ensures d in s <==> d in SetOf(s)
  {
  }

  lemma OneMore(before: seq<Dir>, after: seq<Dir>, d: Dir)
    requires Sorted(before) && Sorted(after) && SetOf(after) == SetOf(before) + {d} && d !in before
    ensures |after| == |before| + 1
  {
    SortedIsDistinct(before);
    SortedIsDistinct(after);
  }

  lemma TooMany(r: seq<Dir>, d: Dir, all: set<Dir>)
    requires Sorted(r) && d !in r && SetOf(r) + {d} <= all && |r| >= MAX_BUNDLES
    ensures |all| > MAX_BUNDLES
  {
    SortedIsDistinct(r);
    SubsetSize(SetOf(r) + {d}, all);
  }

  lemma AllBundlesStep(executables: seq<Executable>, k: nat)
    requires k < |executables|
    ensures AllBundles(executables[..k + 1]) == AllBundles(executables[..k]) + BundlesOf(executables[k].path)
    ensures AllBundles(executables[..0]) == {}
    ensures AllBundles(executables[..k + 1]) <= AllBundles(executables)
  {
    var now, before := executables[..k + 1], executables[..k];
    assert forall j :: 0 <= j < k ==> now[j] == before[j];
    assert now[k] == executables[k];
    hide IsBundle;
  }

  /** All application directories, before anything is read. */
  method GatherBundles(executables: seq<Executable>, checkpoints: Checkpoints) returns (ok: bool, bundles: seq<Dir>)
    modifies checkpoints
    ensures ok ==>
      && Sorted(bundles) && SetOf(bundles) == AllBundles(executables) && |bundles| <= MAX_BUNDLES
      && |executables| <= MAX_PROCESSES && forall e :: e in executables ==> Bounded(e)
    ensures ok ==>
      checkpoints.met == old(checkpoints.met) && checkpoints.looks == old(checkpoints.looks) + 1 + Steps(executables)
    ensures old(checkpoints.Quiet()) ==>
      && checkpoints.Quiet()
      && (ok <==>
            && |executables| <= MAX_PROCESSES && |AllBundles(executables)| <= MAX_BUNDLES
            && forall e :: e in executables ==> Bounded(e))
  {
    hide Less, AllBundles, BundlesOf, SetOf, Sorted, Steps, Checkpoints.Quiet;
    ok, bundles := false, [];
    var cancelled := checkpoints.Cancelled();
    if cancelled || |executables| > MAX_PROCESSES { return; }
    NothingGathered(executables);
    var k := 0;
    while k < |executables|
      invariant 0 <= k <= |executables| && Sorted(bundles) && |bundles| <= MAX_BUNDLES
      invariant SetOf(bundles) == AllBundles(executables[..k])
      invariant forall j :: 0 <= j < k ==> Bounded(executables[j])
      invariant checkpoints.met == old(checkpoints.met) && (old(checkpoints.Quiet()) ==> checkpoints.Quiet())
      invariant checkpoints.looks == old(checkpoints.looks) + 1 + Steps(executables[..k])
    {
      var e := executables[k];
      assert e in executables;
      StepsOn(executables, k);
      AllBundlesStep(executables, k);
      if |AllBundles(executables)| <= MAX_BUNDLES {
        SubsetSize(AllBundles(executables[..k + 1]), AllBundles(executables));
      }
      cancelled := checkpoints.Cancelled();
      if cancelled || e.bytes > MAX_PATH_BYTES || !e.absolute { return; }
      var added;
      added, bundles := AddBundles(e.path, bundles, checkpoints);
      if !added { return; }
      k := k + 1;
    }
    assert executables[..k] == executables;
    ok := true;
    SortedIsDistinct(bundles);
  }

  lemma NothingGathered(executables: seq<Executable>)
    ensures AllBundles(executables[..0]) == {} == SetOf([]) && Sorted([]) && Steps(executables[..0]) == 0
  {
  }

  lemma IdentifiersStep(readings: map<Dir, Reading>, bundles: seq<Dir>, i: nat)
    requires i < |bundles|
    ensures Identifiers(readings, SetOf(bundles[..i + 1])) == Identifiers(readings, SetOf(bundles[..i]))
      + if ReadingOf(readings, bundles[i]).Found? && ValidIdentifier(ReadingOf(readings, bundles[i]).identifier)
        then {ReadingOf(readings, bundles[i]).identifier} else {}
  {
    assert SetOf(bundles[..i + 1]) == SetOf(bundles[..i]) + {bundles[i]};
    hide ValidIdentifier;
  }

  /** The checkpoints of a whole collection: one at each end, those of the gathering, two around each reading. */
  function Questions(executables: seq<Executable>): nat { 2 + Steps(executables) + 2 * |AllBundles(executables)| }

  /**
   * `collect_running_app_bundle_ids`.  On success, the valid identifiers of
   * exactly the enclosing application directories; each is read at most once
   * and in order, and none at all if a bound is exceeded first.
   */
  method Collect(executables: seq<Executable>, readings: map<Dir, Reading>, checkpoints: Checkpoints)
    returns (r: Option<set<string>>, visited: seq<Dir>)
    modifies checkpoints
    ensures Sorted(visited) && SetOf(visited) <= AllBundles(executables)
    ensures r.Some? ==>
      && Collectable(executables, readings)
      && r.value == Identifiers(readings, AllBundles(executables)) && SetOf(visited) == AllBundles(executables)
    ensures visited != [] ==>
      && |executables| <= MAX_PROCESSES && |AllBundles(executables)| <= MAX_BUNDLES
      && forall e :: e in executables ==> Bounded(e)
    ensures r.Some? ==>
      checkpoints.met == old(checkpoints.met) && checkpoints.looks == old(checkpoints.looks) + Questions(executables)
    ensures old(checkpoints.Quiet()) ==>
      checkpoints.Quiet() && (r.Some? <==> Collectable(executables, readings))
  {
    hide Less, AllBundles, ValidIdentifier, Bounded, Steps, Checkpoints.Quiet;
    r, visited := None, [];
    var ok, bundles := GatherBundles(executables, checkpoints);
    if !ok { return; }
    SortedIsDistinct(bundles);
    var identifiers: set<string> := {};
    var i := 0;
    while i < |bundles|
      invariant 0 <= i <= |bundles| && visited == bundles[..i]
      invariant identifiers == Identifiers(readings, SetOf(bundles[..i]))
      invariant forall j :: 0 <= j < i ==> ReadingOf(readings, bundles[j]) != Failed
      invariant checkpoints.met == old(checkpoints.met) && (old(checkpoints.Quiet()) ==> checkpoints.Quiet())
      invariant checkpoints.looks == old(checkpoints.looks) + 1 + Steps(executables) + 2 * i
    {
      var bundle := bundles[i];
      assert bundle in SetOf(bundles);
      IdentifiersStep(readings, bundles, i);
      var cancelled := checkpoints.Cancelled();
      if cancelled { return; }
      visited := visited + [bundle];
      var reading := ReadingOf(readings, bundle);
      if reading.Failed? { return; }
      cancelled := checkpoints.Cancelled();
      if cancelled { return; }
      if reading.Found? && ValidIdentifier(reading.identifier) {
        identifiers := identifiers + {reading.identifier};
      }
      i := i + 1;
    }
    assert bundles[..i] == bundles;
    var cancelled := checkpoints.Cancelled();
    if cancelled { return; }
    r := Some(identifiers);
  }

  // ---- The gate ---------------------------------------------------------

  predicate StartsWith(d: Dir, location: Dir) { |location| <= |d| && d[..|location|] == location }

  /** A running process works in, or was started from, the location. */
  predicate InUse(workingDirectories: seq<Dir>, executables: seq<Executable>, location: Dir) {
    || (exists d :: d in workingDirectories && StartsWith(d, location))
    || (exists e :: e in executables && StartsWith(e.path, location))
  }

  predicate OwnerRuns(identifiers: set<string>, location: Dir, owner: Option<string>) {
    (owner.Some? && owner.value in identifiers) || (location != [] && location[|location| - 1] in identifiers)
  }

  /** The location is in use exactly if a process works at it or below it, or its program is there. */
  lemma InUseExactly(workingDirectories: seq<Dir>, executables: seq<Executable>, location: Dir)
    ensures InUse(workingDirectories, executables, location) <==>
      exists rest: Dir ::
        location + rest in workingDirectories || exists e :: e in executables && e.path == location + rest
  {
    forall d: Dir | StartsWith(d, location) ensures d == location + d[|location|..] { }
    forall rest: Dir ensures StartsWith(location + rest, location) { }
  }

  /** Its owner runs exactly if one of the identifiers is the owner's or the location's last component. */
  lemma OwnerExactly(identifiers: set<string>, location: Dir, owner: Option<string>)
    ensures OwnerRuns(identifiers, location, owner) <==>
      exists id :: id in identifiers && (owner == Some(id) || exists parent: Dir :: location == parent + [id])
  {
    if location != [] { assert location == location[..|location| - 1] + [location[|location| - 1]]; }
  }

  /** A process snapshot; the identifiers are collected by the first cache gate, success or failure, once. */
  class Snapshot {
    const workingDirectories: seq<Dir>
    const executables: seq<Executable>
    const readings: map<Dir, Reading>
    var cell: Option<Option<set<string>>>

    /** A filled cell holds the complete identifiers or a failure. */
    ghost predicate Valid()
      reads this
    {
      cell.Some? && cell.value.Some? ==>
        Collectable(executables, readings) && cell.value.value == Identifiers(readings, AllBundles(executables))
    }

    constructor (workingDirectories: seq<Dir>, executables: seq<Executable>, readings: map<Dir, Reading>)
      ensures Valid() && cell == None
      ensures this.workingDirectories == workingDirectories && this.executables == executables
      ensures this.readings == readings
    {
      this.workingDirectories, this.executables, this.readings, cell := workingDirectories, executables, readings, None;
    }

    /**
     * `blocked_for`, with `writer` for the tables of executable names.  For a
     * cache it fails closed: unblocked only if every running application's
     * identifier could be read and none owns the location.
     */
    method BlockedFor(isCache: bool, writer: bool, location: Dir, owner: Option<string>,
                      checkpoints: Checkpoints) returns (blocked: bool)
      requires Valid()
      modifies this, checkpoints
      ensures Valid() && (old(cell).Some? ==> cell == old(cell))
      ensures writer || InUse(workingDirectories, executables, location) ==> blocked
      ensures !isCache ==>
        cell == old(cell) && (blocked <==> writer || InUse(workingDirectories, executables, location))
      ensures isCache && !blocked ==>
        && Collectable(executables, readings)
        && !OwnerRuns(Identifiers(readings, AllBundles(executables)), location, owner)
      ensures !blocked ==> checkpoints.met == old(checkpoints.met)
      ensures isCache && !blocked ==>
        checkpoints.looks == old(checkpoints.looks) + 1 + if old(cell).None? then Questions(executables) else 0
      ensures isCache && !blocked ==> cell.Some? && cell.value.Some?
      ensures isCache && old(checkpoints.Quiet()) && old(cell).Some? ==>
        (blocked <==> writer || InUse(workingDirectories, executables, location)
                      || cell.value.None? || OwnerRuns(cell.value.value, location, owner))
      ensures isCache && old(checkpoints.Quiet()) && old(cell).None? ==>
        (blocked <==> writer || InUse(workingDirectories, executables, location) || !Collectable(executables, readings)
                      || OwnerRuns(Identifiers(readings, AllBundles(executables)), location, owner))
    {
      hide Identifiers, AllBundles, Collectable, Questions;
      if writer { return true; }
      if InUse(workingDirectories, executables, location) { return true; }
      if !isCache { return false; }
      var cancelled := checkpoints.Cancelled();
      if cancelled { return true; }
      if cell.None? {
        var collected, _ := Collect(executables, readings, checkpoints);
        cell := Some(collected);
      }
      return cell.value.None? || OwnerRuns(cell.value.value, location, owner);
    }
  }
}
