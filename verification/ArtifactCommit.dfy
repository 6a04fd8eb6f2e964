/**
 Committing generated artifacts: one output directory and a set of managed state files are
 replaced by renames, and any failure rolls every rename back. Every rename, removal and
 permission change may fail.
 */
module ArtifactCommit {
  import opened Catalog
  import opened Sequences

  /** The paths the commit touches; output, state, staging and backup lie in separate directories. */
  datatype Path =
    | OutputRoot
    | StagedOutput
    | OutputBackup
    | StateFile(name: string)
    | StagedState(name: string)
    | StateBackup(name: string)

  /** A regular file or directory with its contents, or anything else that occupies the path. */
  datatype Entry = Regular(contents: string) | Irregular

  type Entries = map<Path, Entry>

  predicate SameAt(a: Entries, b: Entries, p: Path) {
    (p in a <==> p in b) && (p in a ==> a[p] == b[p])
  }

  /** Whether operation k of a schedule fails; beyond its end nothing fails. */
  predicate Fault(faults: seq<bool>, k: nat) {
    k < |faults| && faults[k]
  }

  function Rest(faults: seq<bool>, k: nat): seq<bool> {
    if k < |faults| then faults[k..] else []
  }

  /** How many operations of a schedule fail. */
  function FaultCount(faults: seq<bool>): nat {
    if faults == [] then 0 else (if faults[0] then 1 else 0) + FaultCount(faults[1..])
  }

  class FileSystem {
    var entries: Entries
    // One entry per operation to come: true makes it fail.
    var faults: seq<bool>
    ghost var fired: nat

    constructor (entries: Entries, faults: seq<bool>)
      ensures this.entries == entries && this.faults == faults && fired == 0
    {
      this.entries, this.faults, fired := entries, faults, 0;
    }

    /** The faults that have fired and those still to come. */
    ghost function Budget(): nat
      reads this
    {
      fired + FaultCount(faults)
    }

    method NextFails() returns (fails: bool)
      modifies this`faults, this`fired
      ensures fails == Fault(old(faults), 0) && faults == Rest(old(faults), 1)
      ensures fired == old(fired) + (if fails then 1 else 0)
      ensures Budget() == old(Budget())
    {
      fails := faults != [] && faults[0];
      if faults != [] {
        faults := faults[1..];
      }
      if fails {
        fired := fired + 1;
      }
    }

    method Rename(from: Path, to: Path) returns (ok: bool)
      requires from != to
      modifies this
      ensures ok <==> !Fault(old(faults), 0) && from in old(entries)
      ensures entries == if ok then (old(entries) - {from})[to := old(entries)[from]] else old(entries)
      ensures fired == old(fired) + (if Fault(old(faults), 0) then 1 else 0)
      ensures faults == Rest(old(faults), 1) && Budget() == old(Budget())
    {
      var fails := NextFails();
      ok := !fails && from in entries;
      if ok {
        entries := (entries - {from})[to := entries[from]];
      }
    }

    /** Removal that does not mind a missing path. */
    method Remove(p: Path) returns (ok: bool)
      modifies this
      ensures ok ==> entries == old(entries) - {p} && fired == old(fired)
      ensures !ok ==> entries == old(entries) && fired == old(fired) + 1
      ensures Budget() == old(Budget())
    {
      var fails := NextFails();
      ok := !fails;
      if ok {
        entries := entries - {p};
      }
    }

    method Restrict(p: Path) returns (ok: bool)
      modifies this`faults, this`fired
      ensures ok <==> !Fault(old(faults), 0)
      ensures fired == old(fired) + (if ok then 0 else 1)
      ensures faults == Rest(old(faults), 1) && Budget() == old(Budget())
    {
      var fails := NextFails();
      ok := !fails;
    }
  }

  datatype CommitError = RenameFailed(path: Path) | RestrictFailed(file: string)

  datatype Outcome =
    | Committed
    | Refused
    | RolledBack(error: CommitError)
    | RollbackFailed(error: CommitError)

  // ---- Where each file stands while the commit runs

  /** One managed file: moved aside or not, its staged version in place or not. */
  ghost predicate FileKept(before: Entries, now: Entries, f: string, backedUp: bool, placed: bool) {
    && (backedUp ==> StateFile(f) in before && StateBackup(f) in now && now[StateBackup(f)] == before[StateFile(f)])
    && (placed ==> StagedState(f) in before && StateFile(f) in now && now[StateFile(f)] == before[StagedState(f)])
    && (placed && !backedUp ==> StateFile(f) !in before)
    && (!placed && backedUp ==> StateFile(f) !in now)
    && (!placed && !backedUp ==> SameAt(before, now, StateFile(f)))
  }

  ghost predicate FilesKept(before: Entries, now: Entries, backedUp: seq<string>, placed: set<string>) {
    forall f :: FileKept(before, now, f, f in backedUp, f in placed)
  }

  /** While the commit moves forward, unplaced staged versions are also still there. */
  ghost predicate FileStands(before: Entries, now: Entries, f: string, backedUp: bool, placed: bool) {
    FileKept(before, now, f, backedUp, placed) && (!placed ==> SameAt(before, now, StagedState(f)))
  }

  ghost predicate FilesStand(before: Entries, now: Entries, backedUp: seq<string>, placed: set<string>) {
    forall f :: FileStands(before, now, f, f in backedUp, f in placed)
  }

  ghost predicate OutputStands(before: Entries, now: Entries, backedUp: bool, installed: bool) {
    && (backedUp ==> OutputRoot in before && OutputBackup in now && now[OutputBackup] == before[OutputRoot])
    && (installed ==> StagedOutput in before && OutputRoot in now && now[OutputRoot] == before[StagedOutput])
    && (installed && !backedUp ==> OutputRoot !in before)
    && (!installed ==> SameAt(before, now, StagedOutput))
    && (!installed && backedUp ==> OutputRoot !in now)
    && (!installed && !backedUp ==> SameAt(before, now, OutputRoot))
  }

  /** The output directory and every state file are as they were, except possibly `stranded`. */
  ghost predicate RestoredExcept(before: Entries, now: Entries, stranded: set<string>) {
    && SameAt(before, now, OutputRoot)
    && forall f | f !in stranded :: SameAt(before, now, StateFile(f))
  }

  /** A failed permission change on a file that did not exist before leaves that file behind. */
  function Stranded(before: Entries, error: CommitError): set<string> {
    if error.RestrictFailed? && StateFile(error.file) !in before then {error.file} else {}
  }

  /** Exactly the install set is replaced and exactly the remove set is gone. */
  ghost predicate Installed(before: Entries, now: Entries, install: seq<string>, remove: seq<string>) {
    && StagedOutput in before && OutputRoot in now && now[OutputRoot] == before[StagedOutput]
    && forall f ::
         if f in install then
           StagedState(f) in before && StateFile(f) in now && now[StateFile(f)] == before[StagedState(f)]
         else if f in remove then StateFile(f) !in now
         else SameAt(before, now, StateFile(f))
  }

  function Names(files: seq<string>): set<string> {
    set f | f in files
  }

  /** The step failed because its staged source was never there, not because of a fault. */
  predicate SourceMissing(before: Entries, error: CommitError) {
    error.RenameFailed? && (error.path == StagedOutput || error.path.StagedState?) && error.path !in before
  }

  // ---- The planned operations

  datatype Op =
    | MoveOutput
    | PlaceOutput
    | BackUpFile(file: string)
    | PlaceFile(file: string)
    | RestrictFile(file: string)

  function ErrorOf(op: Op): CommitError {
    match op
    case MoveOutput => RenameFailed(OutputRoot)
    case PlaceOutput => RenameFailed(StagedOutput)
    case BackUpFile(f) => RenameFailed(StateFile(f))
    case PlaceFile(f) => RenameFailed(StagedState(f))
    case RestrictFile(f) => RestrictFailed(f)
  }

  function OutputPlan(existingOutput: bool): seq<Op> {
    (if existingOutput then [MoveOutput] else []) + [PlaceOutput]
  }

  function BackUpPlan(before: Entries, file: string): seq<Op> {
    if StateFile(file) in before then [BackUpFile(file)] else []
  }

  function FilePlan(before: Entries, file: string): seq<Op> {
    BackUpPlan(before, file) + [PlaceFile(file), RestrictFile(file)]
  }

  function InstallPlan(before: Entries, install: seq<string>): seq<Op> {
    if install == [] then []
    else InstallPlan(before, install[..|install| - 1]) + FilePlan(before, install[|install| - 1])
  }

  function RemovePlan(before: Entries, remove: seq<string>): seq<Op> {
    if remove == [] then []
    else RemovePlan(before, remove[..|remove| - 1]) + BackUpPlan(before, remove[|remove| - 1])
  }

  /** Every operation a commit performs when nothing fails, in order. */
  function Plan(before: Entries, existingOutput: bool, install: seq<string>, remove: seq<string>): seq<Op> {
    OutputPlan(existingOutput) + InstallPlan(before, install) + RemovePlan(before, remove)
  }

  /** Operation k fails: the schedule says so, or its staged source was never there. */
  predicate OpFails(before: Entries, faults: seq<bool>, op: Op, k: nat) {
    || Fault(faults, k)
    || (op.PlaceOutput? && StagedOutput !in before)
    || (op.PlaceFile? && StagedState(op.file) !in before)
  }

  predicate Succeeds(before: Entries, faults: seq<bool>, plan: seq<Op>, n: nat)
    requires n <= |plan|
  {
    forall k | 0 <= k < n :: !OpFails(before, faults, plan[k], k)
  }

  /** Operation k is the first of the plan that fails. */
  predicate FailsFirst(before: Entries, faults: seq<bool>, plan: seq<Op>, k: nat) {
    k < |plan| && Succeeds(before, faults, plan, k) && OpFails(before, faults, plan[k], k)
  }

  /** The plan stops at its first failing operation, and this is the error it gives. */
  ghost predicate StopsWith(before: Entries, faults: seq<bool>, plan: seq<Op>, error: CommitError) {
    exists k: nat :: FailsFirst(before, faults, plan, k) && error == ErrorOf(plan[k])
  }

  lemma {:induction false} InstallPlanPrefix(before: Entries, install: seq<string>, k: nat)
    requires k <= |install|
    ensures InstallPlan(before, install[..k]) <= InstallPlan(before, install)
    decreases |install|
  {
    if k < |install| {
      InstallPlanPrefix(before, install[..|install| - 1], k);
      assert install[..|install| - 1][..k] == install[..k];
    } else {
      assert install[..k] == install;
    }
  }

  lemma {:induction false} RemovePlanPrefix(before: Entries, remove: seq<string>, k: nat)
    requires k <= |remove|
    ensures RemovePlan(before, remove[..k]) <= RemovePlan(before, remove)
    decreases |remove|
  {
    if k < |remove| {
      RemovePlanPrefix(before, remove[..|remove| - 1], k);
      assert remove[..|remove| - 1][..k] == remove[..k];
    } else {
      assert remove[..k] == remove;
    }
  }

  /** The listed files that exist, in order. */
  function Existing(before: Entries, files: seq<string>): seq<string> {
    if files == [] then []
    else
      var last := files[|files| - 1];
      Existing(before, files[..|files| - 1]) + (if StateFile(last) in before then [last] else [])
  }

  lemma {:induction false} ExistingMembers(before: Entries, files: seq<string>)
    ensures forall f :: f in Existing(before, files) <==> f in files && StateFile(f) in before
  {
    if files != [] {
      assert files == files[..|files| - 1] + [files[|files| - 1]];
      ExistingMembers(before, files[..|files| - 1]);
    }
  }

  /** What the loops need to know when they come to file k of a list. */
  lemma NextFile(before: Entries, files: seq<string>, k: nat)
    requires NoDuplicates(files) && k < |files|
    ensures files[..k + 1] == files[..k] + [files[k]] && files[k] !in files[..k]
    ensures files[k] !in Existing(before, files[..k])
    ensures Existing(before, files[..k + 1])
         == Existing(before, files[..k]) + (if StateFile(files[k]) in before then [files[k]] else [])
  {
    assert files[..k + 1][..k] == files[..k];
    ExistingMembers(before, files[..k]);
  }

  lemma NextInstallPlan(before: Entries, start: seq<Op>, files: seq<string>, k: nat)
    requires k < |files|
    ensures start + InstallPlan(before, files[..k + 1])
         == start + InstallPlan(before, files[..k]) + FilePlan(before, files[k])
    ensures start + InstallPlan(before, files[..k + 1]) <= start + InstallPlan(before, files)
  {
    assert files[..k + 1][..k] == files[..k];
    InstallPlanPrefix(before, files, k + 1);
    Regroup(start, InstallPlan(before, files[..k]), FilePlan(before, files[k]));
  }

  lemma Regroup(a: seq<Op>, b: seq<Op>, c: seq<Op>)
    ensures a + (b + c) == a + b + c
  {
  }

  lemma NextRemovePlan(before: Entries, start: seq<Op>, files: seq<string>, k: nat)
    requires k < |files|
    ensures start + RemovePlan(before, files[..k + 1])
         == start + RemovePlan(before, files[..k]) + BackUpPlan(before, files[k])
    ensures start + RemovePlan(before, files[..k + 1]) <= start + RemovePlan(before, files)
  {
    assert files[..k + 1][..k] == files[..k];
    RemovePlanPrefix(before, files, k + 1);
    Regroup(start, RemovePlan(before, files[..k]), BackUpPlan(before, files[k]));
  }

  /** Only files to install are placed or restricted, and every one of them is. */
  lemma {:induction false} InstallPlanFiles(before: Entries, install: seq<string>)
    ensures forall op | op in InstallPlan(before, install) ::
      !op.MoveOutput? && !op.PlaceOutput? && op.file in install
    ensures forall f | f in install :: RestrictFile(f) in InstallPlan(before, install)
  {
    if install != [] {
      InstallPlanFiles(before, install[..|install| - 1]);
      assert forall f | f in install :: f in install[..|install| - 1] || f == install[|install| - 1];
    }
  }

  lemma {:induction false} RemovePlanFiles(before: Entries, remove: seq<string>)
    ensures forall op | op in RemovePlan(before, remove) :: op.BackUpFile?
  {
    if remove != [] {
      RemovePlanFiles(before, remove[..|remove| - 1]);
    }
  }

  lemma PlanFiles(before: Entries, existingOutput: bool, install: seq<string>, remove: seq<string>)
    ensures forall op | op in Plan(before, existingOutput, install, remove) ::
      (op.PlaceFile? || op.RestrictFile? ==> op.file in install)
    ensures forall f | f in install :: RestrictFile(f) in Plan(before, existingOutput, install, remove)
  {
    InstallPlanFiles(before, install);
    RemovePlanFiles(before, remove);
  }

  /** What the error of a stopped plan says about the files to install. */
  lemma StoppingError(before: Entries, faults: seq<bool>, existingOutput: bool, install: seq<string>,
                      remove: seq<string>, error: CommitError)
    requires StopsWith(before, faults, Plan(before, existingOutput, install, remove), error)
    ensures error.RestrictFailed? ==> error.file in install
    ensures AllStaged(before, install) ==> !SourceMissing(before, error)
  {
    var plan := Plan(before, existingOutput, install, remove);
    var k: nat :| FailsFirst(before, faults, plan, k) && error == ErrorOf(plan[k]);
    PlanFiles(before, existingOutput, install, remove);
    assert plan[k] in plan;
  }

  predicate AllStaged(entries: Entries, install: seq<string>) {
    StagedOutput in entries && forall f | f in install :: StagedState(f) in entries
  }

  // ---- The transaction

  class Transaction {
    const fs: FileSystem
    ghost const before: Entries
    ghost const firedBefore: nat
    ghost const faultsBefore: seq<bool>
    ghost var executed: seq<Op>
    var outputBackedUp: bool
    var outputInstalled: bool
    var stateBackedUp: seq<string>
    var stateInstalled: seq<string>
    ghost var placed: set<string>

    /** The flags and lists describe what has been renamed so far. */
    ghost predicate Valid()
      reads this, fs
    {
      && OutputStands(before, fs.entries, outputBackedUp, outputInstalled)
      && FilesStand(before, fs.entries, stateBackedUp, placed)
      && NoDuplicates(stateBackedUp) && NoDuplicates(stateInstalled)
      && (forall f | f in stateInstalled :: f in placed)
    }

    /** No operation has failed so far, and `executed` lists them all. */
    ghost predicate Undisturbed()
      reads this, fs
    {
      && Valid() && fs.fired == firedBefore && placed == Names(stateInstalled)
      && fs.faults == Rest(faultsBefore, |executed|)
      && Succeeds(before, faultsBefore, executed, |executed|)
    }

    /** The plan was carried out up to its first failing operation, which is the error. */
    ghost predicate StoppedIn(plan: seq<Op>, error: CommitError)
      reads this
    {
      && executed < plan
      && FailsFirst(before, faultsBefore, plan, |executed|)
      && ErrorOf(plan[|executed|]) == error
    }

    /**
     At an error: the staged files in place are those installed and, if its permissions could not
     be set, one more; and a fault has fired unless a staged source was missing from the start.
     */
    ghost predicate StoppedAt(error: CommitError)
      reads this, fs
    {
      && placed == Names(stateInstalled) + (if error.RestrictFailed? then {error.file} else {})
      && (error.RestrictFailed? ==> error.file !in stateInstalled)
      && fs.fired >= firedBefore
      && (fs.fired > firedBefore || SourceMissing(before, error))
    }

    constructor (fs: FileSystem)
      ensures this.fs == fs && before == fs.entries && firedBefore == fs.fired && faultsBefore == fs.faults
      ensures executed == []
      ensures Undisturbed() && !outputBackedUp && !outputInstalled && stateBackedUp == [] && stateInstalled == []
    {
      this.fs := fs;
      before := fs.entries;
      firedBefore := fs.fired;
      faultsBefore := fs.faults;
      executed := [];
      outputBackedUp, outputInstalled := false, false;
      stateBackedUp, stateInstalled := [], [];
      placed := {};
    }

    /** One more operation succeeds, or is where the plan stops. */
    lemma Proceeds(op: Op)
      requires Succeeds(before, faultsBefore, executed, |executed|)
      ensures if OpFails(before, faultsBefore, op, |executed|) then StoppedIn(executed + [op], ErrorOf(op))
              else Succeeds(before, faultsBefore, executed + [op], |executed| + 1)
      ensures Fault(Rest(faultsBefore, |executed|), 0) == Fault(faultsBefore, |executed|)
      ensures Rest(Rest(faultsBefore, |executed|), 1) == Rest(faultsBefore, |executed| + 1)
    {
    }

    lemma StopsLater(plan: seq<Op>, longer: seq<Op>, error: CommitError)
      requires StoppedIn(plan, error) && plan <= longer
      ensures StoppedIn(longer, error)
    {
    }

    method MoveOutputAside() returns (error: Option<CommitError>)
      requires Undisturbed() && !outputBackedUp && !outputInstalled && OutputRoot in before
      modifies this`outputBackedUp, this`executed, fs
      ensures Valid() && fs.Budget() == old(fs.Budget())
      ensures error.None? ==> Undisturbed() && outputBackedUp && executed == old(executed) + [MoveOutput]
      ensures error.Some? ==> StoppedAt(error.value) && StoppedIn(old(executed) + [MoveOutput], error.value)
    {
      Proceeds(MoveOutput);
      var moved := fs.Rename(OutputRoot, OutputBackup);
      if !moved {
        return Some(RenameFailed(OutputRoot));
      }
      outputBackedUp := true;
      executed := executed + [MoveOutput];
      return None;
    }

    method PlaceStagedOutput() returns (error: Option<CommitError>)
      requires Undisturbed() && !outputInstalled && (outputBackedUp <==> OutputRoot in before)
      modifies this`outputInstalled, this`executed, fs
      ensures Valid() && fs.Budget() == old(fs.Budget())
      ensures error.None? ==> Undisturbed() && outputInstalled && executed == old(executed) + [PlaceOutput]
      ensures error.Some? ==> StoppedAt(error.value) && StoppedIn(old(executed) + [PlaceOutput], error.value)
    {
      Proceeds(PlaceOutput);
      var installed := fs.Rename(StagedOutput, OutputRoot);
      if !installed {
        return Some(RenameFailed(StagedOutput));
      }
      outputInstalled := true;
      executed := executed + [PlaceOutput];
      return None;
    }

    /** Moves the old output aside and the staged output into place. */
    method SwapOutput(existingOutput: bool) returns (error: Option<CommitError>)
      requires Undisturbed() && !outputBackedUp && !outputInstalled && executed == []
      requires existingOutput <==> OutputRoot in before
      modifies this`outputBackedUp, this`outputInstalled, this`executed, fs
      ensures Valid() && fs.Budget() == old(fs.Budget())
      ensures error.None? ==> Undisturbed() && outputInstalled && executed == OutputPlan(existingOutput)
      ensures error.Some? ==> StoppedAt(error.value) && StoppedIn(OutputPlan(existingOutput), error.value)
      ensures stateBackedUp == old(stateBackedUp) && stateInstalled == old(stateInstalled)
    {
      if existingOutput {
        error := MoveOutputAside();
        if error.Some? {
          StopsLater([] + [MoveOutput], OutputPlan(existingOutput), error.value);
          return;
        }
      }
      error := PlaceStagedOutput();
    }

    /** Moves an existing state file aside. */
    method BackUp(file: string) returns (error: Option<CommitError>)
      requires Undisturbed() && file !in stateBackedUp && file !in placed && StateFile(file) in before
      modifies this`stateBackedUp, this`executed, fs
      ensures Valid() && fs.Budget() == old(fs.Budget())
      ensures error.None? ==> Undisturbed() && stateBackedUp == old(stateBackedUp) + [file]
      ensures error.None? ==> executed == old(executed) + [BackUpFile(file)]
      ensures error.Some? ==> StoppedAt(error.value) && StoppedIn(old(executed) + [BackUpFile(file)], error.value)
    {
      Proceeds(BackUpFile(file));
      assert FileStands(before, fs.entries, file, file in stateBackedUp, file in placed);
      var moved := fs.Rename(StateFile(file), StateBackup(file));
      if !moved {
        return Some(RenameFailed(StateFile(file)));
      }
      ConcatenationDuplicateFree(stateBackedUp, [file]);
      stateBackedUp := stateBackedUp + [file];
      executed := executed + [BackUpFile(file)];
      assert FilesStand(before, fs.entries, stateBackedUp, placed) by {
        forall f ensures FileStands(before, fs.entries, f, f in stateBackedUp, f in placed) {
          assert FileStands(before, old(fs.entries), f, f in old(stateBackedUp), f in placed);
        }
      }
      return None;
    }

    method MoveStaged(file: string) returns (error: Option<CommitError>)
      requires Undisturbed() && file !in placed && (StateFile(file) in before ==> file in stateBackedUp)
      modifies this`placed, this`executed, fs
      ensures Valid() && fs.Budget() == old(fs.Budget())
      ensures error.None? ==> placed == old(placed) + {file} && executed == old(executed) + [PlaceFile(file)]
      ensures error.None? ==>
        && fs.fired == firedBefore && fs.faults == Rest(faultsBefore, |executed|)
        && Succeeds(before, faultsBefore, executed, |executed|)
      ensures error.Some? ==> StoppedAt(error.value) && StoppedIn(old(executed) + [PlaceFile(file)], error.value)
    {
      Proceeds(PlaceFile(file));
      assert FileStands(before, fs.entries, file, file in stateBackedUp, file in placed);
      var moved := fs.Rename(StagedState(file), StateFile(file));
      if !moved {
        return Some(RenameFailed(StagedState(file)));
      }
      placed := placed + {file};
      executed := executed + [PlaceFile(file)];
      assert FilesStand(before, fs.entries, stateBackedUp, placed) by {
        forall f ensures FileStands(before, fs.entries, f, f in stateBackedUp, f in placed) {
          assert FileStands(before, old(fs.entries), f, f in stateBackedUp, f in old(placed));
        }
      }
      return None;
    }

    /** Moves the staged version of a state file into place and restricts its permissions. */
    method Place(file: string) returns (error: Option<CommitError>)
      requires Undisturbed() && file !in placed && (StateFile(file) in before ==> file in stateBackedUp)
      modifies this`stateInstalled, this`placed, this`executed, fs
      ensures Valid() && fs.Budget() == old(fs.Budget())
      ensures error.None? ==> Undisturbed() && stateInstalled == old(stateInstalled) + [file]
      ensures error.None? ==> executed == old(executed) + [PlaceFile(file), RestrictFile(file)]
      ensures error.Some? ==> StoppedAt(error.value)
      ensures error.Some? ==> StoppedIn(old(executed) + [PlaceFile(file), RestrictFile(file)], error.value)
    {
      ghost var plan := executed + [PlaceFile(file), RestrictFile(file)];
      ghost var first := executed + [PlaceFile(file)];
      error := MoveStaged(file);
      if error.Some? {
        StopsLater(first, plan, error.value);
        return;
      }
      Proceeds(RestrictFile(file));
      assert executed + [RestrictFile(file)] == plan;
      var restricted := fs.Restrict(StateFile(file));
      if !restricted {
        return Some(RestrictFailed(file));
      }
      ConcatenationDuplicateFree(stateInstalled, [file]);
      stateInstalled := stateInstalled + [file];
      executed := plan;
    }

    /** Replaces one file, moving its old version aside first. */
    method Install(file: string, wasThere: bool) returns (error: Option<CommitError>)
      requires Undisturbed() && file !in stateBackedUp && file !in placed && (wasThere <==> StateFile(file) in before)
      modifies this`stateBackedUp, this`stateInstalled, this`placed, this`executed, fs
      ensures Valid() && fs.Budget() == old(fs.Budget())
      ensures error.None? ==> Undisturbed() && stateInstalled == old(stateInstalled) + [file]
      ensures error.None? ==> stateBackedUp == old(stateBackedUp) + (if wasThere then [file] else [])
      ensures error.None? ==> executed == old(executed) + FilePlan(before, file)
      ensures error.Some? ==> StoppedAt(error.value)
      ensures error.Some? ==>
        StoppedIn(old(executed) + FilePlan(before, file), error.value)
    {
      ghost var plan := executed + FilePlan(before, file);
      if wasThere {
        ghost var backedUp := executed + [BackUpFile(file)];
        error := BackUp(file);
        if error.Some? {
          StopsLater(backedUp, plan, error.value);
          return;
        }
      }
      assert executed + [PlaceFile(file), RestrictFile(file)] == plan;
      error := Place(file);
    }

    /** The first k files of the list are installed, and nothing else has happened since `start`. */
    ghost predicate InstalledUpTo(install: seq<string>, k: nat, start: seq<Op>)
      requires k <= |install|
      reads this, fs
    {
      && Undisturbed()
      && stateInstalled == install[..k]
      && executed == start + InstallPlan(before, install[..k])
      && stateBackedUp == Existing(before, install[..k])
    }

    method InstallNext(install: seq<string>, k: nat, existing: set<string>, ghost start: seq<Op>)
      returns (error: Option<CommitError>)
      requires k < |install| && InstalledUpTo(install, k, start) && NoDuplicates(install)
      requires install[k] in existing <==> StateFile(install[k]) in before
      modifies this`stateBackedUp, this`stateInstalled, this`placed, this`executed, fs
      ensures fs.Budget() == old(fs.Budget())
      ensures error.None? ==> InstalledUpTo(install, k + 1, start)
      ensures error.Some? ==> Valid() && StoppedAt(error.value)
      ensures error.Some? ==> StoppedIn(start + InstallPlan(before, install), error.value)
    {
      var file := install[k];
      NextFile(before, install, k);
      NextInstallPlan(before, start, install, k);
      error := Install(file, file in existing);
      if error.Some? {
        StopsLater(start + InstallPlan(before, install[..k + 1]), start + InstallPlan(before, install), error.value);
      }
    }

    /** Replaces every file of the install list. */
    method InstallFiles(install: seq<string>, existing: set<string>) returns (error: Option<CommitError>)
      requires Undisturbed() && stateBackedUp == [] && stateInstalled == []
      requires NoDuplicates(install) && forall f | f in install :: f in existing <==> StateFile(f) in before
      modifies this`stateBackedUp, this`stateInstalled, this`placed, this`executed, fs
      ensures fs.Budget() == old(fs.Budget())
      ensures error.None? ==> InstalledUpTo(install, |install|, old(executed))
      ensures error.Some? ==> Valid() && StoppedAt(error.value)
      ensures error.Some? ==> StoppedIn(old(executed) + InstallPlan(before, install), error.value)
    {
      ghost var start := executed;
      var k := 0;
      while k < |install|
        invariant k <= |install| && fs.Budget() == old(fs.Budget())
        invariant InstalledUpTo(install, k, start)
      {
        error := InstallNext(install, k, existing, start);
        if error.Some? {
          return;
        }
        k := k + 1;
      }
      return None;
    }

    /** Moves one file aside if it is there. */
    method Discard(file: string, wasThere: bool) returns (error: Option<CommitError>)
      requires Undisturbed() && file !in stateBackedUp && file !in placed && (wasThere <==> StateFile(file) in before)
      modifies this`stateBackedUp, this`executed, fs
      ensures Valid() && fs.Budget() == old(fs.Budget())
      ensures error.None? ==> Undisturbed() && executed == old(executed) + BackUpPlan(before, file)
      ensures error.None? ==> stateBackedUp == old(stateBackedUp) + (if wasThere then [file] else [])
      ensures error.Some? ==> StoppedAt(error.value)
      ensures error.Some? ==> StoppedIn(old(executed) + BackUpPlan(before, file), error.value)
    {
      if wasThere {
        error := BackUp(file);
      } else {
        error := None;
      }
    }

    /** The first k files of the list are gone, and nothing else has happened since `start`. */
    ghost predicate RemovedUpTo(install: seq<string>, remove: seq<string>, k: nat, start: seq<Op>)
      requires k <= |remove|
      reads this, fs
    {
      && Undisturbed()
      && stateInstalled == install
      && executed == start + RemovePlan(before, remove[..k])
      && stateBackedUp == Existing(before, install) + Existing(before, remove[..k])
    }

    method RemoveNext(ghost install: seq<string>, remove: seq<string>, k: nat, existing: set<string>,
                      ghost start: seq<Op>)
      returns (error: Option<CommitError>)
      requires k < |remove| && RemovedUpTo(install, remove, k, start)
      requires NoDuplicates(remove) && remove[k] !in install
      requires remove[k] in existing <==> StateFile(remove[k]) in before
      modifies this`stateBackedUp, this`executed, fs
      ensures fs.Budget() == old(fs.Budget())
      ensures error.None? ==> RemovedUpTo(install, remove, k + 1, start)
      ensures error.Some? ==> Valid() && StoppedAt(error.value)
      ensures error.Some? ==> StoppedIn(start + RemovePlan(before, remove), error.value)
    {
      var file := remove[k];
      NextFile(before, remove, k);
      NextRemovePlan(before, start, remove, k);
      ExistingMembers(before, install);
      error := Discard(file, file in existing);
      if error.Some? {
        StopsLater(start + RemovePlan(before, remove[..k + 1]), start + RemovePlan(before, remove), error.value);
      }
    }

    /** Moves aside every existing file of the remove list. */
    method RemoveFiles(ghost install: seq<string>, remove: seq<string>, existing: set<string>)
      returns (error: Option<CommitError>)
      requires Undisturbed() && stateInstalled == install && stateBackedUp == Existing(before, install)
      requires NoDuplicates(remove) && (forall f | f in remove :: f !in install)
      requires forall f | f in remove :: f in existing <==> StateFile(f) in before
      modifies this`stateBackedUp, this`executed, fs
      ensures fs.Budget() == old(fs.Budget())
      ensures error.None? ==> RemovedUpTo(install, remove, |remove|, old(executed))
      ensures error.Some? ==> Valid() && StoppedAt(error.value)
      ensures error.Some? ==> StoppedIn(old(executed) + RemovePlan(before, remove), error.value)
    {
      ghost var start := executed;
      var k := 0;
      while k < |remove|
        invariant k <= |remove| && fs.Budget() == old(fs.Budget())
        invariant RemovedUpTo(install, remove, k, start)
      {
        error := RemoveNext(install, remove, k, existing, start);
        if error.Some? {
          return;
        }
        k := k + 1;
      }
      return None;
    }

    /** The whole plan: the output, the files to install, the files to remove. */
    method CarryOut(existingOutput: bool, install: seq<string>, remove: seq<string>, existing: set<string>)
      returns (error: Option<CommitError>)
      requires Undisturbed() && !outputBackedUp && !outputInstalled && executed == []
      requires stateBackedUp == [] && stateInstalled == []
      requires existingOutput <==> OutputRoot in before
      requires NoDuplicates(install) && NoDuplicates(remove) && (forall f | f in remove :: f !in install)
      requires forall f | f in install || f in remove :: f in existing <==> StateFile(f) in before
      modifies this, fs
      ensures Valid() && fs.Budget() == old(fs.Budget())
      ensures
        var plan := Plan(before, existingOutput, install, remove);
        if error.None? then Succeeds(before, faultsBefore, plan, |plan|)
        else StoppedAt(error.value) && StopsWith(before, faultsBefore, plan, error.value)
      ensures error.None? ==>
        && placed == Names(install) && outputInstalled
        && stateBackedUp == Existing(before, install) + Existing(before, remove)
    {
      ghost var plan := Plan(before, existingOutput, install, remove);
      error := SwapOutput(existingOutput);
      if error.Some? {
        StopsLater(OutputPlan(existingOutput), plan, error.value);
        return;
      }
      error := InstallFiles(install, existing);
      if error.Some? {
        StopsLater(OutputPlan(existingOutput) + InstallPlan(before, install), plan, error.value);
        return;
      }
      assert install[..|install|] == install;
      error := RemoveFiles(install, remove, existing);
      assert remove[..|remove|] == remove;
    }

    /** Removes the installed files, last first. */
    method RemoveInstalled() returns (ok: bool)
      requires Valid()
      modifies fs
      ensures fs.Budget() == old(fs.Budget())
      ensures ok ==> fs.fired == old(fs.fired)
      ensures ok ==> OutputStands(before, fs.entries, outputBackedUp, outputInstalled)
      ensures ok ==> FilesKept(before, fs.entries, stateBackedUp, placed - Names(stateInstalled))
      ensures !ok ==> fs.fired == old(fs.fired) + 1
    {
      ghost var standing := placed;
      var i := |stateInstalled|;
      while i > 0
        invariant 0 <= i <= |stateInstalled|
        invariant fs.fired == old(fs.fired) && fs.Budget() == old(fs.Budget())
        invariant OutputStands(before, fs.entries, outputBackedUp, outputInstalled)
        invariant standing == placed - Names(stateInstalled[i..])
        invariant FilesKept(before, fs.entries, stateBackedUp, standing)
      {
        i := i - 1;
        var file := stateInstalled[i];
        assert stateInstalled[i..] == [file] + stateInstalled[i + 1..];
        ghost var earlier := fs.entries;
        ok := fs.Remove(StateFile(file));
        if !ok {
          return;
        }
        forall f ensures FileKept(before, fs.entries, f, f in stateBackedUp, f in standing - {file}) {
          assert FileKept(before, earlier, f, f in stateBackedUp, f in standing);
          assert FileKept(before, old(fs.entries), f, f in stateBackedUp, f in placed);
        }
        standing := standing - {file};
      }
      assert stateInstalled[0..] == stateInstalled;
      return true;
    }

    /** Puts one backed-up file back, over whatever stands in its place. */
    method RestoreOne(file: string, ghost others: seq<string>, ghost standing: set<string>) returns (ok: bool)
      requires OutputStands(before, fs.entries, outputBackedUp, outputInstalled)
      requires FilesKept(before, fs.entries, others + [file], standing) && file !in others
      modifies fs
      ensures fs.Budget() == old(fs.Budget())
      ensures ok ==> fs.fired == old(fs.fired)
      ensures ok ==> OutputStands(before, fs.entries, outputBackedUp, outputInstalled)
      ensures ok ==> FilesKept(before, fs.entries, others, standing - {file})
      ensures !ok ==> fs.fired == old(fs.fired) + 1
    {
      assert FileKept(before, fs.entries, file, true, file in standing);
      ok := fs.Remove(StateFile(file));
      if !ok {
        return;
      }
      ok := fs.Rename(StateBackup(file), StateFile(file));
      if !ok {
        return;
      }
      forall f ensures FileKept(before, fs.entries, f, f in others, f in standing - {file}) {
        assert FileKept(before, old(fs.entries), f, f in others + [file], f in standing);
      }
    }

    /** Puts every backed-up file back, last first. */
    method RestoreBackups(ghost standing: set<string>) returns (ok: bool)
      requires OutputStands(before, fs.entries, outputBackedUp, outputInstalled)
      requires FilesKept(before, fs.entries, stateBackedUp, standing) && NoDuplicates(stateBackedUp)
      modifies fs
      ensures fs.Budget() == old(fs.Budget())
      ensures ok ==> fs.fired == old(fs.fired)
      ensures ok ==> OutputStands(before, fs.entries, outputBackedUp, outputInstalled)
      ensures ok ==> FilesKept(before, fs.entries, [], standing - Names(stateBackedUp))
      ensures !ok ==> fs.fired == old(fs.fired) + 1
    {
      ghost var left := standing;
      var i := |stateBackedUp|;
      while i > 0
        invariant 0 <= i <= |stateBackedUp|
        invariant fs.fired == old(fs.fired) && fs.Budget() == old(fs.Budget())
        invariant OutputStands(before, fs.entries, outputBackedUp, outputInstalled)
        invariant left == standing - Names(stateBackedUp[i..])
        invariant FilesKept(before, fs.entries, stateBackedUp[..i], left)
      {
        i := i - 1;
        var file := stateBackedUp[i];
        assert stateBackedUp[..i + 1] == stateBackedUp[..i] + [file];
        assert stateBackedUp[i..] == [file] + stateBackedUp[i + 1..];
        ok := RestoreOne(file, stateBackedUp[..i], left);
        if !ok {
          return;
        }
        left := left - {file};
      }
      assert stateBackedUp[0..] == stateBackedUp && stateBackedUp[..0] == [];
      return true;
    }

    /** Removes the installed output and puts the old one back. */
    method RestoreOutput(ghost standing: set<string>) returns (ok: bool)
      requires OutputStands(before, fs.entries, outputBackedUp, outputInstalled)
      requires FilesKept(before, fs.entries, [], standing)
      modifies fs
      ensures fs.Budget() == old(fs.Budget())
      ensures ok ==> fs.fired == old(fs.fired)
      ensures ok ==> SameAt(before, fs.entries, OutputRoot) && FilesKept(before, fs.entries, [], standing)
      ensures !ok ==> fs.fired == old(fs.fired) + 1
    {
      if outputInstalled {
        ok := fs.Remove(OutputRoot);
        if !ok {
          return;
        }
        assert forall f :: FileKept(before, old(fs.entries), f, false, f in standing) ==>
          FileKept(before, fs.entries, f, false, f in standing);
      }
      if outputBackedUp {
        ghost var earlier := fs.entries;
        ok := fs.Rename(OutputBackup, OutputRoot);
        if !ok {
          return;
        }
        assert forall f :: FileKept(before, earlier, f, false, f in standing) ==>
          FileKept(before, fs.entries, f, false, f in standing);
      }
      return true;
    }

    /** Undoes everything; only a further failure can stop it. */
    method RollBack(ghost error: CommitError) returns (ok: bool)
      requires Valid() && StoppedAt(error)
      modifies fs
      ensures fs.Budget() == old(fs.Budget())
      ensures ok ==> RestoredExcept(before, fs.entries, Stranded(before, error))
      ensures ok ==> forall f | f in Stranded(before, error) :: StateFile(f) in fs.entries
      ensures !ok ==> fs.fired == old(fs.fired) + 1
    {
      ghost var afterRemoval := placed - Names(stateInstalled);
      ghost var standing := afterRemoval - Names(stateBackedUp);
      assert standing == Stranded(before, error) by {
        if error.RestrictFailed? {
          assert FileKept(before, fs.entries, error.file, error.file in stateBackedUp, true);
        }
      }
      ok := RemoveInstalled();
      if !ok {
        return;
      }
      ok := RestoreBackups(afterRemoval);
      if !ok {
        return;
      }
      ok := RestoreOutput(standing);
      if ok {
        forall f ensures f !in standing ==> SameAt(before, fs.entries, StateFile(f))
          ensures f in standing ==> StateFile(f) in fs.entries
        {
          assert FileKept(before, fs.entries, f, false, f in standing);
        }
      }
    }
  }

  // ---- The commit

  function Unique(names: seq<string>): (r: seq<string>)
    ensures NoDuplicates(r)
    ensures forall f :: f in r <==> f in names
  {
    if names == [] then []
    else
      var init, last := names[..|names| - 1], names[|names| - 1];
      assert names == init + [last];
      var rest := Unique(init);
      if last in rest then rest
      else
        ConcatenationDuplicateFree(rest, [last]);
        rest + [last]
  }

  /** Position k is where this name comes first. */
  predicate FirstAt(names: seq<string>, k: nat) {
    k < |names| && names[k] !in names[..k]
  }

  ghost predicate Before(names: seq<string>, f: string, g: string) {
    exists i, j :: 0 <= i < j < |names| && names[i] == f && names[j] == g
  }

  /** Without repetitions, names come in the order of their first occurrences. */
  lemma {:induction false} UniqueKeepsOrder(names: seq<string>, a: nat, b: nat)
    requires a < b && FirstAt(names, a) && FirstAt(names, b)
    ensures Before(Unique(names), names[a], names[b])
  {
    var init, last := names[..|names| - 1], names[|names| - 1];
    assert names[..a] == init[..a];
    if b < |init| {
      assert names[..b] == init[..b];
      UniqueKeepsOrder(init, a, b);
      var i, j :| 0 <= i < j < |Unique(init)| && Unique(init)[i] == names[a] && Unique(init)[j] == names[b];
      assert Unique(names)[i] == names[a] && Unique(names)[j] == names[b];
    } else {
      assert names[..b] == init && last !in Unique(init) && init[a] in init;
      var i :| 0 <= i < |Unique(init)| && Unique(init)[i] == names[a];
      assert Unique(names)[i] == names[a] && Unique(names)[|Unique(init)|] == names[b];
    }
  }

  function NotIn(install: seq<string>): string -> bool {
    (f: string) => f !in install
  }

  /** Which managed files exist, or None where the original refuses before renaming anything. */
  method Precheck(fs: FileSystem, files: seq<string>, install: seq<string>, existingOutput: bool,
                  isPlainName: string -> bool)
    returns (existing: Option<set<string>>)
    ensures existing.Some? ==> forall f | f in files :: f in existing.value <==> StateFile(f) in fs.entries
    ensures existing.None? <==> exists f | f in files ::
              || !isPlainName(f)
              || (StateFile(f) in fs.entries
                && (fs.entries[StateFile(f)].Irregular? || (!existingOutput && f in install)))
  {
    var found: set<string> := {};
    var k := 0;
    while k < |files|
      invariant k <= |files|
      invariant forall j | 0 <= j < k ::
                  && isPlainName(files[j])
                  && (StateFile(files[j]) in fs.entries ==>
                        fs.entries[StateFile(files[j])].Regular? && (existingOutput || files[j] !in install))
      invariant forall j | 0 <= j < k :: StateFile(files[j]) in fs.entries ==> files[j] in found
      invariant forall f | f in found :: StateFile(f) in fs.entries
    {
      var file := files[k];
      assert file in files;
      if !isPlainName(file) {
        return None;
      }
      if StateFile(file) in fs.entries {
        if fs.entries[StateFile(file)].Irregular? || (!existingOutput && file in install) {
          return None;
        }
        found := found + {file};
      }
      k := k + 1;
    }
    return Some(found);
  }

  lemma RestoredOrStranded(before: Entries, now: Entries, error: CommitError)
    requires RestoredExcept(before, now, Stranded(before, error))
    requires forall f | f in Stranded(before, error) :: StateFile(f) in now
    ensures RestoredExcept(before, now, {}) <==> !(error.RestrictFailed? && StateFile(error.file) !in before)
  {
    if error.RestrictFailed? && StateFile(error.file) !in before {
      assert error.file in Stranded(before, error);
      assert !SameAt(before, now, StateFile(error.file));
    }
  }

  lemma AllInstalled(before: Entries, now: Entries, backedUp: seq<string>, placed: set<string>, install: seq<string>,
                     remove: seq<string>)
    requires FilesStand(before, now, backedUp, placed) && (forall f :: f in placed <==> f in install)
    requires forall f :: f in backedUp <==> (f in install || f in remove) && StateFile(f) in before
    requires StagedOutput in before && OutputRoot in now && now[OutputRoot] == before[StagedOutput]
    ensures Installed(before, now, install, remove)
  {
    forall f
      ensures if f in install then
                StagedState(f) in before && StateFile(f) in now && now[StateFile(f)] == before[StagedState(f)]
              else if f in remove then StateFile(f) !in now
              else SameAt(before, now, StateFile(f))
    {
      assert FileStands(before, now, f, f in backedUp, f in placed);
    }
  }

  /** What the checks before the first rename refuse. */
  ghost predicate RefusedFor(entries: Entries, existingOutput: bool, install: seq<string>, remove: seq<string>,
                             isPlainName: string -> bool)
  {
    exists f | f in install || f in remove ::
      || !isPlainName(f)
      || (StateFile(f) in entries && (entries[StateFile(f)].Irregular? || (!existingOutput && f in install)))
  }

  /** The files to remove: those asked for that are not installed as well. */
  function Removing(install: seq<string>, remove: seq<string>): (r: seq<string>)
    ensures NoDuplicates(r)
    ensures forall f :: f in r <==> f in remove && f !in install
  {
    FilterMembers(Unique(remove), NotIn(Unique(install)));
    FilterDuplicateFree(Unique(remove), NotIn(Unique(install)));
    Filter(Unique(remove), NotIn(Unique(install)))
  }

  function CommitPlan(entries: Entries, existingOutput: bool, install: seq<string>, remove: seq<string>): seq<Op> {
    Plan(entries, existingOutput, Unique(install), Removing(install, remove))
  }

  /**
   All or nothing, and the inputs decide which. A run is refused exactly when a check fails. Any
   other run commits exactly when no operation of its plan fails; then it has installed exactly
   the requested files and removed exactly the others. Otherwise the first failing operation
   is the error, and unless a second fault stops the rollback everything is as before, except
   one file that did not exist before and whose permissions could not be set.
   */
  method CommitManagedWrite(fs: FileSystem, existingOutput: bool, installStateFiles: seq<string>,
                            removeStateFiles: seq<string>, isPlainName: string -> bool)
    returns (outcome: Outcome)
    requires existingOutput <==> OutputRoot in fs.entries
    modifies fs
    ensures outcome.Refused? <==>
      RefusedFor(old(fs.entries), existingOutput, installStateFiles, removeStateFiles, isPlainName)
    ensures outcome.Refused? ==> fs.entries == old(fs.entries)
    ensures
      var plan := CommitPlan(old(fs.entries), existingOutput, installStateFiles, removeStateFiles);
      && (!outcome.Refused? ==>
            (outcome.Committed? <==> Succeeds(old(fs.entries), old(fs.faults), plan, |plan|)))
      && (outcome.RolledBack? || outcome.RollbackFailed? ==>
            StopsWith(old(fs.entries), old(fs.faults), plan, outcome.error))
    ensures outcome.Committed? ==> Installed(old(fs.entries), fs.entries, installStateFiles, removeStateFiles)
    ensures outcome.RolledBack? ==>
      RestoredExcept(old(fs.entries), fs.entries, Stranded(old(fs.entries), outcome.error))
    ensures outcome.RolledBack? ==>
      (RestoredExcept(old(fs.entries), fs.entries, {}) <==> Stranded(old(fs.entries), outcome.error) == {})
    ensures outcome.RolledBack? && (forall f | f in installStateFiles :: StateFile(f) in old(fs.entries)) ==>
      RestoredExcept(old(fs.entries), fs.entries, {})
    ensures outcome.RollbackFailed? && AllStaged(old(fs.entries), installStateFiles) ==>
      FaultCount(old(fs.faults)) >= 2
  {
    var install, remove := Unique(installStateFiles), Removing(installStateFiles, removeStateFiles);
    ghost var plan := CommitPlan(fs.entries, existingOutput, installStateFiles, removeStateFiles);
    var existing := Precheck(fs, install + remove, install, existingOutput, isPlainName);
    assert forall f :: f in install + remove <==> f in installStateFiles || f in removeStateFiles;
    if existing.None? {
      return Refused;
    }
    var t := new Transaction(fs);
    var error := t.CarryOut(existingOutput, install, remove, existing.value);
    if error.None? {
      ExistingMembers(t.before, install);
      ExistingMembers(t.before, remove);
      AllInstalled(t.before, fs.entries, t.stateBackedUp, t.placed, installStateFiles, removeStateFiles);
      return Committed;
    }
    StoppingError(t.before, t.faultsBefore, existingOutput, install, remove, error.value);
    var undone := t.RollBack(error.value);
    if undone {
      RestoredOrStranded(t.before, fs.entries, error.value);
    }
    return if undone then RolledBack(error.value) else RollbackFailed(error.value);
  }

  lemma {:induction false} NoFaults(faults: seq<bool>)
    requires FaultCount(faults) == 0
    ensures forall k: nat :: !Fault(faults, k)
  {
    if faults != [] {
      NoFaults(faults[1..]);
      forall k: nat ensures !Fault(faults, k) {
        assert k > 0 ==> !Fault(faults[1..], k - 1);
      }
    }
  }

  /** With every staged source in place and no fault scheduled, the plan goes through. */
  lemma CleanRunSucceeds(entries: Entries, faults: seq<bool>, existingOutput: bool, install: seq<string>,
                         remove: seq<string>)
    requires AllStaged(entries, install) && FaultCount(faults) == 0
    ensures
      var plan := CommitPlan(entries, existingOutput, install, remove);
      Succeeds(entries, faults, plan, |plan|)
  {
    var plan := CommitPlan(entries, existingOutput, install, remove);
    NoFaults(faults);
    PlanFiles(entries, existingOutput, Unique(install), Removing(install, remove));
    forall k | 0 <= k < |plan| ensures !OpFails(entries, faults, plan[k], k) {
      assert plan[k] in plan;
    }
  }

  // ---- When a rolled-back run does not restore everything

  lemma FirstFailureUnique(before: Entries, faults: seq<bool>, plan: seq<Op>, j: nat, k: nat)
    requires FailsFirst(before, faults, plan, j) && FailsFirst(before, faults, plan, k)
    ensures j == k
  {
  }

  function IndexOf(plan: seq<Op>, op: Op): (k: nat)
    requires op in plan
    ensures k < |plan| && plan[k] == op
  {
    if plan[0] == op then 0 else 1 + IndexOf(plan[1..], op)
  }

  /** Everything works but operation k. */
  function OnlyFault(k: nat): seq<bool> {
    if k == 0 then [true] else [false] + OnlyFault(k - 1)
  }

  lemma {:induction false} OnlyFaultAt(k: nat)
    ensures |OnlyFault(k)| == k + 1 && FaultCount(OnlyFault(k)) == 1
    ensures forall j: nat :: Fault(OnlyFault(k), j) <==> j == k
  {
    if k > 0 {
      OnlyFaultAt(k - 1);
      assert OnlyFault(k)[1..] == OnlyFault(k - 1);
      forall j: nat ensures Fault(OnlyFault(k), j) <==> j == k {
        assert j > 0 ==> (Fault(OnlyFault(k - 1), j - 1) <==> j - 1 == k - 1);
      }
    }
  }

  /** The schedule in which only the permission change on `file` fails. */
  function StrandingSchedule(entries: Entries, existingOutput: bool, install: seq<string>, remove: seq<string>,
                             file: string): seq<bool>
    requires file in install
  {
    var plan := CommitPlan(entries, existingOutput, install, remove);
    PlanFiles(entries, existingOutput, Unique(install), Removing(install, remove));
    OnlyFault(IndexOf(plan, RestrictFile(file)))
  }

  lemma ScheduleStopsAtRestrict(entries: Entries, existingOutput: bool, install: seq<string>, remove: seq<string>,
                                file: string, error: CommitError)
    requires file in install && AllStaged(entries, install)
    requires StopsWith(entries, StrandingSchedule(entries, existingOutput, install, remove, file),
                       CommitPlan(entries, existingOutput, install, remove), error)
    ensures error == RestrictFailed(file)
    ensures FaultCount(StrandingSchedule(entries, existingOutput, install, remove, file)) == 1
  {
    var plan := CommitPlan(entries, existingOutput, install, remove);
    PlanFiles(entries, existingOutput, Unique(install), Removing(install, remove));
    var k := IndexOf(plan, RestrictFile(file));
    OnlyFaultAt(k);
    ScheduleReachesRestrict(entries, existingOutput, install, remove, file);
    var j: nat :| FailsFirst(entries, OnlyFault(k), plan, j) && error == ErrorOf(plan[j]);
    FirstFailureUnique(entries, OnlyFault(k), plan, j, k);
  }

  lemma ScheduleReachesRestrict(entries: Entries, existingOutput: bool, install: seq<string>, remove: seq<string>,
                                file: string)
    requires file in install && AllStaged(entries, install)
    ensures
      var plan := CommitPlan(entries, existingOutput, install, remove);
      var faults := StrandingSchedule(entries, existingOutput, install, remove, file);
      && RestrictFile(file) in plan
      && FailsFirst(entries, faults, plan, IndexOf(plan, RestrictFile(file)))
      && !Succeeds(entries, faults, plan, |plan|)
  {
    var plan := CommitPlan(entries, existingOutput, install, remove);
    PlanFiles(entries, existingOutput, Unique(install), Removing(install, remove));
    var k := IndexOf(plan, RestrictFile(file));
    OnlyFaultAt(k);
    forall j | 0 <= j < k ensures !OpFails(entries, OnlyFault(k), plan[j], j) {
      assert plan[j] in plan && !Fault(OnlyFault(k), j);
    }
    assert Fault(OnlyFault(k), k);
  }

  /**
   The converse of full restoration: for every run that is not refused and installs some file
   that did not exist, there is one fault after which the rollback leaves that file behind.
   */
  method StrandNewFile(fs: FileSystem, existingOutput: bool, install: seq<string>, remove: seq<string>,
                       isPlainName: string -> bool, ghost file: string)
    returns (outcome: Outcome)
    requires existingOutput <==> OutputRoot in fs.entries
    requires !RefusedFor(fs.entries, existingOutput, install, remove, isPlainName)
    requires AllStaged(fs.entries, install) && file in install && StateFile(file) !in fs.entries
    requires fs.faults == StrandingSchedule(fs.entries, existingOutput, install, remove, file)
    modifies fs
    ensures outcome == RolledBack(RestrictFailed(file))
    ensures !RestoredExcept(old(fs.entries), fs.entries, {}) && StateFile(file) in fs.entries
  {
    ScheduleReachesRestrict(fs.entries, existingOutput, install, remove, file);
    ghost var given := fs.entries;
    outcome := CommitManagedWrite(fs, existingOutput, install, remove, isPlainName);
    ScheduleStopsAtRestrict(given, existingOutput, install, remove, file, outcome.error);
  }

  lemma OneFileToInstall(file: string)
    ensures Unique([file]) == [file] && Removing([file], []) == []
  {
    assert [file][..0] == [];
    assert Unique([]) == [];
  }

  lemma OneFilePlan(entries: Entries, file: string)
    requires StateFile(file) !in entries
    ensures Plan(entries, false, [file], []) == [PlaceOutput, PlaceFile(file), RestrictFile(file)]
  {
    assert [file][..0] == [];
    assert InstallPlan(entries, []) == [];
    assert InstallPlan(entries, [file]) == [PlaceFile(file), RestrictFile(file)];
  }

  lemma OneFileSchedule(entries: Entries, file: string)
    requires StateFile(file) !in entries
    ensures StrandingSchedule(entries, false, [file], [], file) == [false, false, true]
  {
    OneFileToInstall(file);
    OneFilePlan(entries, file);
    var plan := [PlaceOutput, PlaceFile(file), RestrictFile(file)];
    assert plan[1..] == [PlaceFile(file), RestrictFile(file)];
    assert plan[1..][1..] == [RestrictFile(file)];
    assert IndexOf(plan, RestrictFile(file)) == 2;
    assert OnlyFault(0) == [true] && OnlyFault(1) == [false, true];
  }

  /** A first build with one state file whose permission change fails: the file is left behind. */
  method StrandedFileIsLeft(fs: FileSystem) returns (outcome: Outcome)
    requires fs.entries == map[StagedOutput := Regular("output"), StagedState("lock") := Regular("state")]
    requires fs.faults == [false, false, true]
    modifies fs
    ensures outcome == RolledBack(RestrictFailed("lock"))
    ensures StateFile("lock") in fs.entries && StateFile("lock") !in old(fs.entries)
  {
    var file := "lock";
    OneFileSchedule(fs.entries, file);
    outcome := StrandNewFile(fs, false, [file], [], name => true, file);
  }
}
