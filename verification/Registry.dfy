/**
 The active-boundary registry as a state machine over its file operations. Writers take a
 lock, read, and then replace two files one after the other; readers take no lock. Every
 interleaving of writers, with a failure possible at every write, keeps the registry valid,
 loses no update, and never shows a reader a boundary from before a full deactivation.

 A write renames a finished file into place and then restricts its permissions. When that last
 part fails, the file has changed although the writer sees an error; this alone lets the two
 files part, and exactly when it does is stated at the end.

 A lock is released only by its holder: taking over a stale lock is not part of this model.
 Reading a file, capturing the legacy file and releasing the lock do not fail.
 */
module Registry {
  import opened Catalog
  import opened Sequences

  const MAX_ACTIVE_BOUNDARIES := 8

  datatype Boundary = Boundary(
    name: string,
    source: string,
    profile: string,
    trustedContext: string,
    organizationScope: Option<string>,
    authority: string)

  /** The contents of the registry file. */
  datatype RegistryFile = RegistryFile(selectedName: string, boundaries: seq<Boundary>)

  datatype Operation =
    | Activate(boundary: Boundary, add: bool)
    | Deactivate(name: Option<string>)

  // ---- What an update means

  function Without(bs: seq<Boundary>, name: string): seq<Boundary> {
    if bs == [] then []
    else (if bs[0].name == name then [] else [bs[0]]) + Without(bs[1..], name)
  }

  predicate SamePosture(a: Boundary, b: Boundary) {
    && a.source == b.source && a.profile == b.profile
    && a.trustedContext == b.trustedContext && a.organizationScope == b.organizationScope
  }

  predicate OnePosture(bs: seq<Boundary>) {
    forall i | 0 <= i < |bs| :: SamePosture(bs[i], bs[0])
  }

  predicate NamesDistinct(bs: seq<Boundary>) {
    forall i, j | 0 <= i < j < |bs| :: bs[i].name != bs[j].name
  }

  predicate Coherent(bs: seq<Boundary>) {
    |bs| <= MAX_ACTIVE_BOUNDARIES && NamesDistinct(bs) && OnePosture(bs)
  }

  /** The list an operation works on: replacing starts from nothing. */
  function Base(op: Operation, active: seq<Boundary>): seq<Boundary> {
    if op.Activate? && !op.add then [] else active
  }

  /** The list after the operation, or None where the original throws before writing. */
  function Updated(active: seq<Boundary>, op: Operation): Option<seq<Boundary>> {
    match op
    case Activate(b, _) =>
      var next := Without(Base(op, active), b.name) + [b];
      if |next| <= MAX_ACTIVE_BOUNDARIES && OnePosture(next) then Some(next) else None
    case Deactivate(None) => Some([])
    case Deactivate(Some(name)) =>
      if active != [] && Without(active, name) == active then None else Some(Without(active, name))
  }

  function Last(bs: seq<Boundary>): Option<Boundary> {
    if bs == [] then None else Some(bs[|bs| - 1])
  }

  /** The active boundaries that the two files stand for. */
  function View(legacy: Option<Boundary>, registry: Option<RegistryFile>): seq<Boundary> {
    if registry.Some? then registry.value.boundaries
    else if legacy.Some? then [legacy.value]
    else []
  }

  /** Updates applied one after the other; one that throws changes nothing. */
  function Replay(initial: seq<Boundary>, log: seq<Operation>): seq<Boundary> {
    if log == [] then initial
    else
      var before := Replay(initial, log[..|log| - 1]);
      Updated(before, log[|log| - 1]).GetOr(before)
  }

  // ---- The state machine

  type Pid = nat

  datatype Outcome = Committed | Failed | NothingActive

  datatype Process =
    | Idle
    | Waiting(op: Operation)
    | Locked(op: Operation)
    | Missed(op: Operation)
    | Loaded(op: Operation, active: seq<Boundary>)
    | Decided(op: Operation, next: seq<Boundary>)
    | Captured(op: Operation, next: seq<Boundary>, snapshot: Option<Boundary>)
    | LegacyWritten(op: Operation, next: seq<Boundary>, snapshot: Option<Boundary>)
    | Restoring(op: Operation, next: seq<Boundary>, snapshot: Option<Boundary>)
    | Releasing(op: Operation, outcome: Outcome)

  /**
   What has happened so far; the files do not record it. A run is late once a permission change
   has failed after its rename.
   */
  datatype History = History(
    initial: seq<Boundary>,
    log: seq<Operation>,
    epoch: nat,
    introduced: set<(nat, Boundary)>,
    late: bool)

  datatype State = State(
    lock: Option<Pid>,
    legacy: Option<Boundary>,
    registry: Option<RegistryFile>,
    processes: map<Pid, Process>,
    history: History)
  {
    function At(p: Pid): Process {
      if p in processes then processes[p] else Idle
    }

    function With(p: Pid, process: Process): State {
      this.(processes := processes[p := process])
    }
  }

  datatype Action =
    | Begin(op: Operation)
    | Acquire
    | GiveUp
    | LockFileFails
    | ReadRegistry
    | ReadLegacy
    | Decide
    | Capture
    | WriteLegacy(ok: bool)
    | WriteRegistry(ok: bool)
    | WriteLegacyLate
    | WriteRegistryLate
    | Restore
    | Release

  function AfterReading(op: Operation, active: seq<Boundary>): Process {
    if op.Deactivate? && active == [] then Releasing(op, NothingActive) else Loaded(op, active)
  }

  function Introduce(h: History, op: Operation): History {
    if op.Activate? then h.(introduced := h.introduced + {(h.epoch, op.boundary)}) else h
  }

  /** The registry write: replace the file, or remove it when nothing stays active. */
  function CommitRegistry(s: State, op: Operation, next: seq<Boundary>): State {
    var log := s.history.log + [op];
    if next == [] then
      s.(registry := None, history := s.history.(log := log, epoch := s.history.epoch + 1))
    else
      s.(registry := Some(RegistryFile(next[|next| - 1].name, next)), history := s.history.(log := log))
  }

  /** One file operation or decision of process p; None when the process is not at that point. */
  function Step(s: State, p: Pid, a: Action): Option<State> {
    match (s.At(p), a)
    case (Idle, Begin(op)) => Some(s.With(p, Waiting(op)))
    case (Waiting(op), Acquire) => if s.lock.None? then Some(s.(lock := Some(p)).With(p, Locked(op))) else None
    case (Waiting(op), GiveUp) => if s.lock.Some? then Some(s.With(p, Idle)) else None
    case (Locked(op), LockFileFails) => Some(s.With(p, Releasing(op, Failed)))
    case (Locked(op), ReadRegistry) =>
      if op.Activate? && !op.add then Some(s.With(p, Loaded(op, [])))
      else if s.registry.Some? then Some(s.With(p, AfterReading(op, s.registry.value.boundaries)))
      else Some(s.With(p, Missed(op)))
    case (Missed(op), ReadLegacy) =>
      Some(s.With(p, AfterReading(op, if s.legacy.Some? then [s.legacy.value] else [])))
    case (Loaded(op, active), Decide) =>
      var next := Updated(active, op);
      Some(s.With(p, if next.Some? then Decided(op, next.value) else Releasing(op, Failed)))
    case (Decided(op, next), Capture) => Some(s.With(p, Captured(op, next, s.legacy)))
    case (Captured(op, next, snapshot), WriteLegacy(ok)) =>
      if ok then
        Some(s.(legacy := Last(next), history := Introduce(s.history, op)).With(p, LegacyWritten(op, next, snapshot)))
      else
        Some(s.With(p, Releasing(op, Failed)))
    case (LegacyWritten(op, next, snapshot), WriteRegistry(ok)) =>
      if ok then Some(CommitRegistry(s, op, next).With(p, Releasing(op, Committed)))
      else Some(s.With(p, Restoring(op, next, snapshot)))
    case (Captured(op, next, snapshot), WriteLegacyLate) =>
      if next == [] then None
      else
        var late := Introduce(s.history, op).(late := true);
        Some(s.(legacy := Last(next), history := late).With(p, Releasing(op, Failed)))
    case (LegacyWritten(op, next, snapshot), WriteRegistryLate) =>
      if next == [] then None
      else
        var committed := CommitRegistry(s, op, next);
        Some(committed.(history := committed.history.(late := true)).With(p, Restoring(op, next, snapshot)))
    case (Restoring(op, next, snapshot), Restore) =>
      Some(s.(legacy := snapshot).With(p, Releasing(op, Failed)))
    case (Releasing(op, outcome), Release) => Some(s.(lock := None).With(p, Idle))
    case _ => None
  }

  // ---- The invariant

  predicate Holding(process: Process) {
    !process.Idle? && !process.Waiting?
  }

  /** A registry file every reader accepts, whose selection is its last boundary. */
  predicate ValidRegistry(r: RegistryFile) {
    && 1 <= |r.boundaries|
    && Coherent(r.boundaries)
    && r.selectedName == r.boundaries[|r.boundaries| - 1].name
  }

  /** The legacy file shows the registry's last boundary. */
  predicate InStep(legacy: Option<Boundary>, registry: Option<RegistryFile>) {
    registry.Some? ==> legacy == Last(registry.value.boundaries)
  }

  predicate Known(h: History, b: Boundary) {
    (h.epoch, b) in h.introduced
  }

  predicate AllKnown(h: History, bs: seq<Boundary>) {
    forall i | 0 <= i < |bs| :: Known(h, bs[i])
  }

  predicate LegacyKnown(h: History, legacy: Option<Boundary>) {
    legacy.Some? ==> Known(h, legacy.value)
  }

  /** The committed files agree with each other and with everything committed so far. */
  predicate Settled(h: History, legacy: Option<Boundary>, registry: Option<RegistryFile>) {
    && InStep(legacy, registry)
    && View(legacy, registry) == Replay(h.initial, h.log)
    && AllKnown(h, View(legacy, registry))
    && LegacyKnown(h, legacy)
  }

  predicate HolderHolds(s: State, process: Process) {
    var h, view := s.history, View(s.legacy, s.registry);
    match process
    case Idle => false
    case Waiting(_) => false
    case Locked(op) => Settled(h, s.legacy, s.registry)
    case Missed(op) => Settled(h, s.legacy, s.registry) && s.registry.None? && (op.Activate? ==> op.add)
    case Loaded(op, active) => Settled(h, s.legacy, s.registry) && active == Base(op, view)
    case Decided(op, next) => Settled(h, s.legacy, s.registry) && Updated(view, op) == Some(next)
    case Captured(op, next, snapshot) =>
      Settled(h, s.legacy, s.registry) && Updated(view, op) == Some(next) && snapshot == s.legacy
    case LegacyWritten(op, next, snapshot) => MidWrite(s, op, next, snapshot)
    case Restoring(op, next, snapshot) => MidWrite(s, op, next, snapshot)
    case Releasing(op, outcome) =>
      && Settled(h, s.legacy, s.registry)
      && (outcome.Committed? ==> h.log != [] && h.log[|h.log| - 1] == op)
  }

  /** The legacy file is ahead of the registry; the snapshot still tells the committed state. */
  predicate MidWrite(s: State, op: Operation, next: seq<Boundary>, snapshot: Option<Boundary>) {
    && Settled(s.history, snapshot, s.registry)
    && Updated(View(snapshot, s.registry), op) == Some(next)
    && s.legacy == Last(next)
    && AllKnown(s.history, next)
  }

  ghost predicate LockDiscipline(s: State) {
    forall p: Pid :: Holding(s.At(p)) <==> s.lock == Some(p)
  }

  /** Every permission change so far succeeded once its file was in place. */
  predicate OnTime(s: State) {
    !s.history.late
  }

  /** The files agree with the committed updates, or with the one under way. */
  ghost predicate FilesAgree(s: State) {
    && (match s.lock
        case None => Settled(s.history, s.legacy, s.registry)
        case Some(p) => HolderHolds(s, s.At(p)))
  }

  /** Every boundary is known, or is the one the operation activates. */
  predicate Brings(h: History, op: Operation, next: seq<Boundary>) {
    forall i | 0 <= i < |next| :: Known(h, next[i]) || (op.Activate? && next[i] == op.boundary)
  }

  /** What holds of the process past the lock even in a run that is late. */
  predicate HolderSteady(h: History, legacy: Option<Boundary>, process: Process) {
    match process
    case Idle => false
    case Waiting(_) => false
    case Locked(_) => true
    case Missed(_) => true
    case Loaded(op, active) => Coherent(active) && AllKnown(h, active)
    case Decided(op, next) => Coherent(next) && Brings(h, op, next)
    case Captured(op, next, snapshot) => Coherent(next) && Brings(h, op, next) && snapshot == legacy
    case LegacyWritten(op, next, snapshot) => SteadyWrite(h, legacy, next, snapshot)
    case Restoring(op, next, snapshot) => SteadyWrite(h, legacy, next, snapshot)
    case Releasing(op, outcome) => outcome.Committed? ==> h.log != [] && h.log[|h.log| - 1] == op
  }

  predicate SteadyWrite(h: History, legacy: Option<Boundary>, next: seq<Boundary>, snapshot: Option<Boundary>) {
    Coherent(next) && AllKnown(h, next) && LegacyKnown(h, snapshot) && legacy == Last(next)
  }

  /** Whatever has failed, the registry is valid and both files hold boundaries of the current epoch. */
  ghost predicate Steady(s: State) {
    && (s.registry.Some? ==> ValidRegistry(s.registry.value) && AllKnown(s.history, s.registry.value.boundaries))
    && LegacyKnown(s.history, s.legacy)
    && (s.lock.Some? ==> HolderSteady(s.history, s.legacy, s.At(s.lock.value)))
  }

  ghost predicate Invariant(s: State) {
    LockDiscipline(s) && Steady(s) && (OnTime(s) ==> FilesAgree(s))
  }

  ghost predicate Initial(s: State) {
    && s.lock.None?
    && (forall p: Pid :: s.At(p).Idle?)
    && (s.registry.Some? ==> ValidRegistry(s.registry.value))
    && InStep(s.legacy, s.registry)
    && s.history.initial == View(s.legacy, s.registry)
    && s.history.log == []
    && s.history.epoch == 0
    && !s.history.late
    && s.history.introduced == (set b | b in View(s.legacy, s.registry) :: (0, b))
  }

  lemma InitialInvariant(s: State)
    requires Initial(s)
    ensures Invariant(s)
  {
    var view := View(s.legacy, s.registry);
    forall i | 0 <= i < |view| ensures Known(s.history, view[i]) {
      assert view[i] in view;
    }
    if s.legacy.Some? {
      assert s.legacy.value in view;
    }
  }

  // ---- Lists

  lemma {:induction false} WithoutMembers(bs: seq<Boundary>, name: string)
    ensures forall b :: b in Without(bs, name) <==> b in bs && b.name != name
    ensures |Without(bs, name)| <= |bs|
  {
    if bs != [] {
      WithoutMembers(bs[1..], name);
      assert bs == [bs[0]] + bs[1..];
    }
  }

  lemma {:induction false} WithoutNamesDistinct(bs: seq<Boundary>, name: string)
    requires NamesDistinct(bs)
    ensures NamesDistinct(Without(bs, name))
  {
    if bs != [] {
      var rest := bs[1..];
      assert forall i | 0 <= i < |rest| :: rest[i] == bs[i + 1];
      WithoutNamesDistinct(rest, name);
      WithoutMembers(rest, name);
      forall j | 0 <= j < |Without(rest, name)| ensures Without(rest, name)[j].name != bs[0].name {
        assert Without(rest, name)[j] in Without(rest, name);
        var k :| 0 <= k < |rest| && rest[k] == Without(rest, name)[j];
        assert bs[0].name != bs[k + 1].name;
      }
    }
  }

  lemma SubsetOnePosture(bs: seq<Boundary>, part: seq<Boundary>)
    requires OnePosture(bs) && forall b | b in part :: b in bs
    ensures OnePosture(part)
  {
    forall i | 0 <= i < |part| ensures SamePosture(part[i], part[0]) {
      assert part[i] in bs && part[0] in bs;
    }
  }

  lemma AppendedNamesDistinct(kept: seq<Boundary>, b: Boundary)
    requires NamesDistinct(kept) && forall i | 0 <= i < |kept| :: kept[i].name != b.name
    ensures NamesDistinct(kept + [b])
  {
  }

  /** An update of a coherent list is coherent, and only an activation adds to it. */
  lemma UpdatedCoherent(active: seq<Boundary>, op: Operation)
    requires Coherent(active) && Updated(active, op).Some?
    ensures Coherent(Updated(active, op).value)
    ensures forall b | b in Updated(active, op).value :: b in active || (op.Activate? && b == op.boundary)
  {
    match op
    case Activate(b, _) => ActivatedCoherent(Base(op, active), b);
    case Deactivate(None) =>
    case Deactivate(Some(name)) =>
      WithoutMembers(active, name);
      WithoutNamesDistinct(active, name);
      SubsetOnePosture(active, Without(active, name));
  }

  lemma ActivatedCoherent(base: seq<Boundary>, b: Boundary)
    requires NamesDistinct(base)
    ensures NamesDistinct(Without(base, b.name) + [b])
    ensures forall x | x in Without(base, b.name) + [b] :: x in base || x == b
  {
    var kept := Without(base, b.name);
    WithoutMembers(base, b.name);
    WithoutNamesDistinct(base, b.name);
    forall i | 0 <= i < |kept| ensures kept[i].name != b.name {
      assert kept[i] in kept;
    }
    AppendedNamesDistinct(kept, b);
  }

  lemma {:induction false} WithoutAbsent(bs: seq<Boundary>, name: string)
    ensures Without(bs, name) == bs <==> forall b | b in bs :: b.name != name
  {
    if bs != [] {
      WithoutAbsent(bs[1..], name);
      WithoutMembers(bs[1..], name);
      assert bs == [bs[0]] + bs[1..];
      if bs[0].name == name {
        assert |Without(bs, name)| < |bs|;
      }
    }
  }

  function NotNamed(name: string): Boundary -> bool {
    (b: Boundary) => b.name != name
  }

  lemma {:induction false} WithoutIsFilter(bs: seq<Boundary>, name: string)
    ensures Without(bs, name) == Filter(bs, NotNamed(name))
  {
    if bs != [] {
      WithoutIsFilter(bs[1..], name);
      FilterHead(bs, NotNamed(name));
    }
  }

  /** What an activation leaves of the active list: all but its namesake when adding, nothing otherwise. */
  function Others(active: seq<Boundary>, op: Operation): seq<Boundary>
    requires op.Activate?
  {
    if op.add then Filter(active, NotNamed(op.boundary.name)) else []
  }

  predicate MixesPostures(a: Boundary, b: Boundary) {
    || a.source != b.source || a.profile != b.profile
    || a.trustedContext != b.trustedContext || a.organizationScope != b.organizationScope
  }

  lemma OthersAreBase(active: seq<Boundary>, op: Operation)
    requires op.Activate?
    ensures Without(Base(op, active), op.boundary.name) == Others(active, op)
  {
    WithoutIsFilter(Base(op, active), op.boundary.name);
  }

  /**
   Activating puts the new boundary after the others, in their order, and is refused exactly when
   there are eight others or one of another posture. Deactivating a name keeps exactly the others
   in their order, and is refused exactly when something is active but not that name.
   */
  lemma UpdateMeaning(active: seq<Boundary>, op: Operation)
    ensures op.Activate? ==>
      Updated(active, op)
        == if |Others(active, op)| >= 8 || exists x | x in Others(active, op) :: MixesPostures(x, op.boundary) then None
           else Some(Others(active, op) + [op.boundary])
    ensures op.Deactivate? && op.name.None? ==> Updated(active, op) == Some([])
    ensures op.Deactivate? && op.name.Some? ==>
      Updated(active, op)
        == if active != [] && forall x | x in active :: x.name != op.name.value then None
           else Some(Filter(active, NotNamed(op.name.value)))
  {
    match op
    case Activate(b, _) =>
      OthersAreBase(active, op);
      PostureOfLast(Others(active, op), b);
    case Deactivate(None) =>
    case Deactivate(Some(name)) =>
      WithoutIsFilter(active, name);
      WithoutAbsent(active, name);
  }

  lemma PostureOfLast(kept: seq<Boundary>, b: Boundary)
    ensures OnePosture(kept + [b]) <==> forall x | x in kept :: !MixesPostures(x, b)
  {
    var next := kept + [b];
    if OnePosture(next) {
      assert SamePosture(next[|kept|], next[0]);
      forall x | x in kept ensures !MixesPostures(x, b) {
        var i :| 0 <= i < |kept| && kept[i] == x;
        assert SamePosture(next[i], next[0]);
      }
    } else {
      var i :| 0 <= i < |next| && !SamePosture(next[i], next[0]);
      assert kept != [] && kept[0] in kept;
      assert i < |kept| ==> kept[i] in kept;
    }
  }

  lemma ViewCoherent(legacy: Option<Boundary>, registry: Option<RegistryFile>)
    requires registry.Some? ==> ValidRegistry(registry.value)
    ensures Coherent(View(legacy, registry))
  {
  }

  /** What a process at work would update is what the operation means for the current view. */
  lemma UpdatedFromBase(active: seq<Boundary>, op: Operation)
    ensures Updated(Base(op, active), op) == Updated(active, op)
  {
  }

  lemma ReplayAppends(initial: seq<Boundary>, log: seq<Operation>, op: Operation)
    ensures Replay(initial, log + [op]) == Updated(Replay(initial, log), op).GetOr(Replay(initial, log))
  {
    assert (log + [op])[..|log + [op]| - 1] == log;
  }

  // ---- Preservation

  /** Only the acting process moves, so the others still hold the lock or do not. */
  lemma OthersUnmoved(s: State, s': State, p: Pid, q: Pid, a: Action)
    requires Step(s, p, a) == Some(s') && q != p
    ensures s'.At(q) == s.At(q)
  {
  }

  lemma WriteLegacyPreserves(s: State, s': State, p: Pid, op: Operation, next: seq<Boundary>,
                             snapshot: Option<Boundary>)
    requires Invariant(s) && OnTime(s) && s.lock == Some(p) && s.At(p) == Captured(op, next, snapshot)
    requires Step(s, p, WriteLegacy(true)) == Some(s')
    ensures HolderHolds(s', s'.At(p))
  {
    var view := View(s.legacy, s.registry);
    ViewCoherent(s.legacy, s.registry);
    UpdatedCoherent(view, op);
    forall i | 0 <= i < |view| ensures Known(s'.history, view[i]) {
      assert Known(s.history, view[i]);
    }
    forall i | 0 <= i < |next| ensures Known(s'.history, next[i]) {
      assert next[i] in next;
      if next[i] in view {
        var j :| 0 <= j < |view| && view[j] == next[i];
        assert Known(s.history, view[j]);
      }
    }
  }

  lemma CommitPreserves(s: State, s': State, p: Pid, op: Operation, next: seq<Boundary>, snapshot: Option<Boundary>)
    requires Invariant(s) && OnTime(s) && s.lock == Some(p) && s.At(p) == LegacyWritten(op, next, snapshot)
    requires Step(s, p, WriteRegistry(true)) == Some(s')
    ensures HolderHolds(s', s'.At(p))
  {
    ViewCoherent(snapshot, s.registry);
    UpdatedCoherent(View(snapshot, s.registry), op);
    ReplayAppends(s.history.initial, s.history.log, op);
    if next != [] {
      assert s'.legacy == Some(next[|next| - 1]);
      assert Known(s.history, next[|next| - 1]);
    }
  }

  lemma LockDisciplinePreserved(s: State, s': State, p: Pid, a: Action)
    requires LockDiscipline(s) && Step(s, p, a) == Some(s')
    ensures LockDiscipline(s')
  {
    forall q: Pid ensures Holding(s'.At(q)) <==> s'.lock == Some(q) {
      assert Holding(s.At(q)) <==> s.lock == Some(q);
      assert Holding(s.At(p)) <==> s.lock == Some(p);
      if q != p {
        OthersUnmoved(s, s', p, q, a);
      }
    }
  }

  /** Introducing a boundary keeps the known ones known. */
  lemma KnownStays(h: History, op: Operation, bs: seq<Boundary>)
    ensures AllKnown(h, bs) ==> AllKnown(Introduce(h, op), bs)
    ensures Brings(h, op, bs) ==> AllKnown(Introduce(h, op), bs)
  {
    forall i | 0 <= i < |bs| && Known(h, bs[i]) ensures Known(Introduce(h, op), bs[i]) {
    }
  }

  lemma UpdatedBrings(h: History, active: seq<Boundary>, op: Operation)
    requires Coherent(active) && AllKnown(h, active) && Updated(active, op).Some?
    ensures Coherent(Updated(active, op).value) && Brings(h, op, Updated(active, op).value)
  {
    UpdatedCoherent(active, op);
    var next := Updated(active, op).value;
    forall i | 0 <= i < |next| ensures Known(h, next[i]) || (op.Activate? && next[i] == op.boundary) {
      assert next[i] in next;
      if next[i] in active {
        var j :| 0 <= j < |active| && active[j] == next[i];
        assert Known(h, active[j]);
      }
    }
  }

  lemma LegacyWriteSteady(s: State, s': State, p: Pid, a: Action)
    requires LockDiscipline(s) && Steady(s) && s.lock == Some(p) && Step(s, p, a) == Some(s')
    requires a == WriteLegacy(true) || a == WriteLegacyLate
    ensures Steady(s')
  {
    match s.At(p)
    case Captured(op, next, snapshot) =>
      KnownStays(s.history, op, next);
      if s.registry.Some? {
        KnownStays(s.history, op, s.registry.value.boundaries);
      }
      if next != [] {
        assert Known(s'.history, next[|next| - 1]);
      }
  }

  lemma RegistryWriteSteady(s: State, s': State, p: Pid, a: Action)
    requires LockDiscipline(s) && Steady(s) && s.lock == Some(p) && Step(s, p, a) == Some(s')
    requires a == WriteRegistry(true) || a == WriteRegistryLate
    ensures Steady(s')
  {
    match s.At(p)
    case LegacyWritten(op, next, snapshot) =>
      forall i | 0 <= i < |next| && next != [] ensures Known(s'.history, next[i]) {
        assert Known(s.history, next[i]);
      }
  }

  /** Registry validity, the epoch of both files and the log of successes survive every step. */
  lemma SteadyPreserved(s: State, s': State, p: Pid, a: Action)
    requires LockDiscipline(s) && Steady(s) && Step(s, p, a) == Some(s')
    ensures Steady(s')
  {
    assert Holding(s.At(p)) <==> s.lock == Some(p);
    if s.lock.Some? && s.lock.value != p {
      OthersUnmoved(s, s', p, s.lock.value, a);
    } else if s.lock == Some(p) {
      if a == WriteLegacy(true) || a == WriteLegacyLate {
        LegacyWriteSteady(s, s', p, a);
      } else if a == WriteRegistry(true) || a == WriteRegistryLate {
        RegistryWriteSteady(s, s', p, a);
      } else if s.At(p).Loaded? && Updated(s.At(p).active, s.At(p).op).Some? {
        UpdatedBrings(s.history, s.At(p).active, s.At(p).op);
      }
    }
  }

  /** Every step of every process keeps the invariant. */
  lemma StepPreserves(s: State, s': State, p: Pid, a: Action)
    requires Invariant(s) && Step(s, p, a) == Some(s')
    ensures Invariant(s')
  {
    LockDisciplinePreserved(s, s', p, a);
    SteadyPreserved(s, s', p, a);
    if OnTime(s') {
      assert OnTime(s);
      if s.lock.Some? && s.lock.value != p {
        OthersUnmoved(s, s', p, s.lock.value, a);
        assert !Holding(s.At(p));
      } else if s.lock == Some(p) {
        HolderStepPreserves(s, s', p, a);
      }
    }
  }

  /** Reading and deciding change no file. */
  lemma ReadingStepPreserves(s: State, s': State, p: Pid, a: Action)
    requires Invariant(s) && OnTime(s') && Step(s, p, a) == Some(s') && s.lock == Some(p)
    requires s.At(p).Locked? || s.At(p).Missed? || s.At(p).Loaded?
    ensures s'.(processes := s.processes) == s
    ensures HolderHolds(s', s'.At(p))
  {
    if s.At(p).Loaded? {
      UpdatedFromBase(View(s.legacy, s.registry), s.At(p).op);
    }
  }

  lemma WritingStepPreserves(s: State, s': State, p: Pid, a: Action)
    requires Invariant(s) && OnTime(s') && Step(s, p, a) == Some(s') && s.lock == Some(p)
    requires s.At(p).Captured? || s.At(p).LegacyWritten?
    ensures HolderHolds(s', s'.At(p)) && s'.lock == Some(p)
  {
    match s.At(p)
    case Captured(op, next, snapshot) =>
      if a == WriteLegacy(true) {
        WriteLegacyPreserves(s, s', p, op, next, snapshot);
      }
    case LegacyWritten(op, next, snapshot) =>
      if a == WriteRegistry(true) {
        CommitPreserves(s, s', p, op, next, snapshot);
      }
  }

  lemma HolderStepPreserves(s: State, s': State, p: Pid, a: Action)
    requires Invariant(s) && OnTime(s') && Step(s, p, a) == Some(s') && s.lock == Some(p)
    ensures if a.Release? then Settled(s'.history, s'.legacy, s'.registry) else HolderHolds(s', s'.At(p))
    ensures s'.lock == if a.Release? then None else Some(p)
  {
    assert Holding(s.At(p));
    if s.At(p).Locked? || s.At(p).Missed? || s.At(p).Loaded? {
      ReadingStepPreserves(s, s', p, a);
    } else if s.At(p).Captured? || s.At(p).LegacyWritten? {
      WritingStepPreserves(s, s', p, a);
    }
  }

  // ---- Runs

  datatype Move = Move(pid: Pid, action: Action)

  ghost predicate Run(states: seq<State>, moves: seq<Move>) {
    && |states| == |moves| + 1
    && Initial(states[0])
    && forall i | 0 <= i < |moves| :: Step(states[i], moves[i].pid, moves[i].action) == Some(states[i + 1])
  }

  lemma {:induction false} RunInvariant(states: seq<State>, moves: seq<Move>, i: nat)
    requires Run(states, moves) && i < |states|
    ensures Invariant(states[i])
  {
    if i == 0 {
      InitialInvariant(states[0]);
    } else {
      RunInvariant(states, moves, i - 1);
      StepPreserves(states[i - 1], states[i - 1 + 1], moves[i - 1].pid, moves[i - 1].action);
    }
  }

  /** At most one process is past the lock at any moment of any run. */
  lemma MutualExclusion(states: seq<State>, moves: seq<Move>, i: nat, p: Pid, q: Pid)
    requires Run(states, moves) && i < |states|
    requires Holding(states[i].At(p)) && Holding(states[i].At(q))
    ensures p == q
  {
    RunInvariant(states, moves, i);
  }

  /**
   The registry holds one to eight distinctly named boundaries of one posture and selects the
   last of them. Whenever no writer is past the lock and the run is on time, the active
   boundaries are exactly the committed updates replayed in order and the legacy file shows the
   registry's last.
   */
  lemma QuietRegistry(states: seq<State>, moves: seq<Move>, i: nat)
    requires Run(states, moves) && i < |states|
    ensures states[i].registry.Some? ==>
      var r := states[i].registry.value;
      && 1 <= |r.boundaries| <= 8 && NamesDistinct(r.boundaries)
      && (forall j | 0 <= j < |r.boundaries| :: SamePosture(r.boundaries[j], r.boundaries[0]))
      && r.selectedName == r.boundaries[|r.boundaries| - 1].name
    ensures states[i].lock.None? && OnTime(states[i]) ==>
      && View(states[i].legacy, states[i].registry) == Replay(states[i].history.initial, states[i].history.log)
      && (states[i].registry.Some? ==>
            var bs := states[i].registry.value.boundaries; states[i].legacy == Some(bs[|bs| - 1]))
  {
    RunInvariant(states, moves, i);
  }

  /** A writer that reports success has its operation in the log, in last place while it holds the lock. */
  lemma SuccessIsLogged(states: seq<State>, moves: seq<Move>, i: nat, p: Pid, op: Operation)
    requires Run(states, moves) && i < |states| && states[i].At(p) == Releasing(op, Committed)
    ensures states[i].history.log != [] && states[i].history.log[|states[i].history.log| - 1] == op
  {
    RunInvariant(states, moves, i);
    assert Holding(states[i].At(p));
  }

  /** The log only grows. */
  lemma {:induction false} LogOnlyGrows(states: seq<State>, moves: seq<Move>, i: nat, j: nat)
    requires Run(states, moves) && i <= j < |states|
    ensures states[i].history.log <= states[j].history.log
  {
    if i < j {
      LogOnlyGrows(states, moves, i, j - 1);
      assert Step(states[j - 1], moves[j - 1].pid, moves[j - 1].action) == Some(states[j - 1 + 1]);
    }
  }

  /** No update is lost: what a writer reports as committed keeps its place among the committed updates for good. */
  lemma NoUpdateLost(states: seq<State>, moves: seq<Move>, i: nat, j: nat, p: Pid, op: Operation)
    requires Run(states, moves) && i <= j < |states| && states[i].At(p) == Releasing(op, Committed)
    ensures 0 < |states[i].history.log| <= |states[j].history.log|
    ensures states[j].history.log[|states[i].history.log| - 1] == op
  {
    SuccessIsLogged(states, moves, i, p, op);
    LogOnlyGrows(states, moves, i, j);
  }

  // ---- Readers that take no lock

  /** Whatever writers are doing, a reader that finds the registry of a run on time reads one committed state. */
  lemma ReaderSeesCommittedState(states: seq<State>, moves: seq<Move>, i: nat)
    requires Run(states, moves) && i < |states| && states[i].registry.Some?
    ensures ValidRegistry(states[i].registry.value)
    ensures OnTime(states[i]) ==>
      states[i].registry.value.boundaries == Replay(states[i].history.initial, states[i].history.log)
  {
    RunInvariant(states, moves, i);
  }

  lemma EpochGrows(s: State, s': State, p: Pid, a: Action)
    requires Step(s, p, a) == Some(s')
    ensures s.history.epoch <= s'.history.epoch
    ensures s.registry.Some? && s'.registry.None? ==> s.history.epoch < s'.history.epoch
  {
  }

  lemma {:induction false} EpochsAlongRun(states: seq<State>, moves: seq<Move>, i: nat, j: nat)
    requires Run(states, moves) && i <= j < |states|
    ensures states[i].history.epoch <= states[j].history.epoch
    ensures states[i].registry.Some? && states[j].registry.None? ==> states[i].history.epoch < states[j].history.epoch
  {
    if i < j {
      EpochsAlongRun(states, moves, i, j - 1);
      EpochGrows(states[j - 1], states[j - 1 + 1], moves[j - 1].pid, moves[j - 1].action);
    }
  }

  /** Step m writes the legacy file on behalf of an activation of b. */
  ghost predicate ActivationWrites(states: seq<State>, moves: seq<Move>, m: nat, b: Boundary)
    requires |states| == |moves| + 1 && m < |moves|
  {
    && (moves[m].action == WriteLegacy(true) || moves[m].action == WriteLegacyLate)
    && var process := states[m].At(moves[m].pid);
       process.Captured? && process.op.Activate? && process.op.boundary == b
  }

  lemma IntroducedByStep(s: State, s': State, p: Pid, a: Action, e: nat, b: Boundary)
    requires Step(s, p, a) == Some(s') && (e, b) in s'.history.introduced && (e, b) !in s.history.introduced
    ensures (a == WriteLegacy(true) || a == WriteLegacyLate) && s.At(p).Captured?
    ensures s.At(p).op.Activate? && s.At(p).op.boundary == b
    ensures e == s.history.epoch
  {
  }

  /**
   A boundary introduced in an epoch later than state i was written by an activation after
   state i, in that very epoch.
   */
  lemma {:induction false} IntroducedLater(
    states: seq<State>, moves: seq<Move>, i: nat, k: nat, e: nat, b: Boundary) returns (m: nat)
    requires Run(states, moves) && i <= k < |states|
    requires (e, b) in states[k].history.introduced && e > states[i].history.epoch
    ensures i <= m < k && ActivationWrites(states, moves, m, b) && states[m].history.epoch == e
    decreases k
  {
    EpochsBound(states, moves, i, e, b);
    if (e, b) in states[k - 1].history.introduced {
      m := IntroducedLater(states, moves, i, k - 1, e, b);
    } else {
      IntroducedByStep(states[k - 1], states[k - 1 + 1], moves[k - 1].pid, moves[k - 1].action, e, b);
      m := k - 1;
    }
  }

  /** Nothing is recorded for an epoch that has not begun. */
  lemma {:induction false} EpochsBound(states: seq<State>, moves: seq<Move>, i: nat, e: nat, b: Boundary)
    requires Run(states, moves) && i < |states| && e > states[i].history.epoch
    ensures (e, b) !in states[i].history.introduced
  {
    if i > 0 {
      EpochGrows(states[i - 1], states[i - 1 + 1], moves[i - 1].pid, moves[i - 1].action);
      EpochsBound(states, moves, i - 1, e, b);
      if (e, b) in states[i].history.introduced {
        IntroducedByStep(states[i - 1], states[i - 1 + 1], moves[i - 1].pid, moves[i - 1].action, e, b);
      }
    }
  }

  /** Step t commits that nothing stays active. */
  ghost predicate CommitsFullDeactivation(states: seq<State>, moves: seq<Move>, t: nat)
    requires |states| == |moves| + 1 && t < |moves|
  {
    && moves[t].action == WriteRegistry(true)
    && var process := states[t].At(moves[t].pid);
       process.LegacyWritten? && process.next == []
  }

  /** Within one epoch no full deactivation is committed. */
  lemma SameEpochKeepsActive(states: seq<State>, moves: seq<Move>, m: nat, k: nat, t: nat)
    requires Run(states, moves) && m <= t < k < |states|
    requires states[m].history.epoch == states[k].history.epoch
    ensures !CommitsFullDeactivation(states, moves, t)
  {
    if m < t {
      EpochsAlongRun(states, moves, m, t);
    }
    if t + 1 < k {
      EpochsAlongRun(states, moves, t + 1, k);
    }
    assert Step(states[t], moves[t].pid, moves[t].action) == Some(states[t + 1]);
    EpochGrows(states[t], states[t + 1], moves[t].pid, moves[t].action);
  }

  /**
   A reader that saw a registry at i, misses it at j and falls back to the legacy file at k
   gets only a boundary that some activation wrote after i and that no full deactivation
   committed since then has removed: a full deactivation is never undone.
   */
  lemma ReaderNeverResurrects(states: seq<State>, moves: seq<Move>, i: nat, j: nat, k: nat, b: Boundary)
    returns (m: nat)
    requires Run(states, moves) && i <= j <= k < |states|
    requires states[i].registry.Some? && states[j].registry.None? && states[k].legacy == Some(b)
    ensures i <= m < k && ActivationWrites(states, moves, m, b)
    ensures forall t | m <= t < k :: !CommitsFullDeactivation(states, moves, t)
  {
    RunInvariant(states, moves, k);
    EpochsAlongRun(states, moves, i, j);
    EpochsAlongRun(states, moves, j, k);
    m := IntroducedLater(states, moves, i, k, states[k].history.epoch, b);
    forall t | m <= t < k ensures !CommitsFullDeactivation(states, moves, t) {
      SameEpochKeepsActive(states, moves, m, k, t);
    }
  }

  /** The lock holder has written the legacy file for an activation of b and is not done with the registry. */
  ghost predicate InFlight(s: State, b: Boundary) {
    && s.lock.Some?
    && var process := s.At(s.lock.value);
       && (process.LegacyWritten? || process.Restoring?)
       && process.op.Activate? && process.op.boundary == b
       && Last(process.next) == Some(b)
  }

  /** What the legacy file of a run on time shows is committed as active, or is being activated at this moment. */
  lemma LegacyIsActiveOrInFlight(states: seq<State>, moves: seq<Move>, k: nat, b: Boundary)
    requires Run(states, moves) && k < |states| && states[k].legacy == Some(b)
    ensures OnTime(states[k]) ==>
      b in Replay(states[k].history.initial, states[k].history.log) || InFlight(states[k], b)
  {
    RunInvariant(states, moves, k);
    var s := states[k];
    if OnTime(s) {
      if s.lock.Some? && (s.At(s.lock.value).LegacyWritten? || s.At(s.lock.value).Restoring?) {
        var process := s.At(s.lock.value);
        var view := View(process.snapshot, s.registry);
        ViewCoherent(process.snapshot, s.registry);
        UpdatedCoherent(view, process.op);
        UpdateMeaning(view, process.op);
        assert b in process.next;
      } else {
        assert b in View(s.legacy, s.registry);
      }
    }
  }

  // ---- Updates take effect

  /** The state after p has done these actions, if each of them can be done. */
  function Acts(s: State, p: Pid, actions: seq<Action>): Option<State>
    decreases |actions|
  {
    if actions == [] then Some(s)
    else
      var before := Acts(s, p, actions[..|actions| - 1]);
      if before.None? then None else Step(before.value, p, actions[|actions| - 1])
  }

  lemma OneMoreAction(s: State, p: Pid, actions: seq<Action>, t: State, a: Action, u: State)
    requires Acts(s, p, actions) == Some(t) && Step(t, p, a) == Some(u)
    ensures Acts(s, p, actions + [a]) == Some(u)
  {
    assert (actions + [a])[..|actions|] == actions;
  }

  /** The same files and history; only p has moved on, and it holds the lock. */
  predicate HeldBy(s: State, t: State, p: Pid, process: Process) {
    && t.lock == Some(p) && t.At(p) == process
    && t.legacy == s.legacy && t.registry == s.registry && t.history == s.history
  }

  lemma ComesToRead(s: State, p: Pid, op: Operation) returns (actions: seq<Action>, t: State)
    requires s.lock.None? && s.At(p).Idle?
    ensures Acts(s, p, actions) == Some(t) && HeldBy(s, t, p, Locked(op))
  {
    assert Acts(s, p, []) == Some(s);
    var waiting := s.With(p, Waiting(op));
    OneMoreAction(s, p, [], s, Begin(op), waiting);
    t := waiting.(lock := Some(p)).With(p, Locked(op));
    OneMoreAction(s, p, [] + [Begin(op)], waiting, Acquire, t);
    actions := [] + [Begin(op)] + [Acquire];
  }

  /** What p has read is what the operation works on. */
  lemma ComesToDecide(s: State, p: Pid, op: Operation) returns (actions: seq<Action>, t: State)
    requires s.lock.None? && s.At(p).Idle?
    ensures Acts(s, p, actions) == Some(t)
    ensures HeldBy(s, t, p, AfterReading(op, Base(op, View(s.legacy, s.registry))))
  {
    var locked;
    actions, locked := ComesToRead(s, p, op);
    var active := Base(op, View(s.legacy, s.registry));
    if (op.Activate? && !op.add) || s.registry.Some? {
      t := locked.With(p, AfterReading(op, active));
      OneMoreAction(s, p, actions, locked, ReadRegistry, t);
      actions := actions + [ReadRegistry];
    } else {
      var missed := locked.With(p, Missed(op));
      OneMoreAction(s, p, actions, locked, ReadRegistry, missed);
      t := missed.With(p, AfterReading(op, active));
      OneMoreAction(s, p, actions + [ReadRegistry], missed, ReadLegacy, t);
      actions := actions + [ReadRegistry] + [ReadLegacy];
    }
  }

  lemma ComesToRelease(s: State, p: Pid, actions: seq<Action>, t: State, op: Operation, outcome: Outcome)
    returns (all: seq<Action>, u: State)
    requires Acts(s, p, actions) == Some(t) && t.At(p) == Releasing(op, outcome)
    ensures Acts(s, p, all) == Some(u) && u == t.(lock := None).With(p, Idle)
  {
    u := t.(lock := None).With(p, Idle);
    OneMoreAction(s, p, actions, t, Release, u);
    all := actions + [Release];
  }

  /** The two writes, one after the other, with nothing failing. */
  lemma Writes(s: State, p: Pid, actions: seq<Action>, t: State, op: Operation, next: seq<Boundary>)
    returns (all: seq<Action>, u: State)
    requires Acts(s, p, actions) == Some(t) && HeldBy(s, t, p, Decided(op, next))
    ensures Acts(s, p, all) == Some(u) && u.At(p) == Releasing(op, Committed)
    ensures View(u.legacy, u.registry) == next && u.history.log == s.history.log + [op]
    ensures next != [] ==> u.legacy == Some(next[|next| - 1])
    ensures next == [] ==> u.legacy.None? && u.registry.None?
  {
    var captured := t.With(p, Captured(op, next, t.legacy));
    OneMoreAction(s, p, actions, t, Capture, captured);
    var written := captured.(legacy := Last(next), history := Introduce(captured.history, op))
      .With(p, LegacyWritten(op, next, t.legacy));
    OneMoreAction(s, p, actions + [Capture], captured, WriteLegacy(true), written);
    u := CommitRegistry(written, op, next).With(p, Releasing(op, Committed));
    OneMoreAction(s, p, actions + [Capture] + [WriteLegacy(true)], written, WriteRegistry(true), u);
    all := actions + [Capture] + [WriteLegacy(true)] + [WriteRegistry(true)];
  }

  /** Nothing has changed but that p was there and left. */
  predicate Unchanged(s: State, t: State) {
    t.lock.None? && t.legacy == s.legacy && t.registry == s.registry && t.history == s.history
  }

  /**
   While the lock is free, a writer that nothing disturbs comes to an end, and its update takes
   effect: afterwards exactly the updated list is active, it is logged, and the legacy file shows
   its last boundary. It changes nothing if there is nothing to deactivate or the update is refused.
   */
  lemma UpdateTakesEffect(s: State, p: Pid, op: Operation) returns (actions: seq<Action>, t: State)
    requires s.lock.None? && s.At(p).Idle?
    ensures Acts(s, p, actions) == Some(t) && t.lock.None? && t.At(p).Idle?
    ensures
      var view := View(s.legacy, s.registry);
      if op.Deactivate? && view == [] then Unchanged(s, t)
      else if Updated(view, op).None? then Unchanged(s, t)
      else
        && View(t.legacy, t.registry) == Updated(view, op).value
        && t.history.log == s.history.log + [op]
        && (View(t.legacy, t.registry) == [] ==> t.legacy.None? && t.registry.None?)
        && (View(t.legacy, t.registry) != [] ==>
              t.legacy == Some(View(t.legacy, t.registry)[|View(t.legacy, t.registry)| - 1]))
  {
    var view := View(s.legacy, s.registry);
    var loaded, decided;
    UpdatedFromBase(view, op);
    actions, loaded := ComesToDecide(s, p, op);
    if op.Deactivate? && view == [] {
      actions, t := ComesToRelease(s, p, actions, loaded, op, NothingActive);
    } else if Updated(view, op).None? {
      decided := loaded.With(p, Releasing(op, Failed));
      OneMoreAction(s, p, actions, loaded, Decide, decided);
      actions, t := ComesToRelease(s, p, actions + [Decide], decided, op, Failed);
    } else {
      var next := Updated(view, op).value;
      decided := loaded.With(p, Decided(op, next));
      OneMoreAction(s, p, actions, loaded, Decide, decided);
      var written;
      actions, written := Writes(s, p, actions + [Decide], decided, op, next);
      actions, t := ComesToRelease(s, p, actions, written, op, Committed);
    }
  }

  /** Whoever holds the lock can always take another step, and whoever waits can once the lock is free. */
  lemma NobodyIsStuck(s: State, p: Pid) returns (a: Action)
    requires LockDiscipline(s) && (s.lock == Some(p) || (s.lock.None? && s.At(p).Waiting?))
    ensures Step(s, p, a).Some?
  {
    assert Holding(s.At(p)) <==> s.lock == Some(p);
    match s.At(p)
    case Waiting(_) => a := Acquire;
    case Locked(_) => a := ReadRegistry;
    case Missed(_) => a := ReadLegacy;
    case Loaded(_, _) => a := Decide;
    case Decided(_, _) => a := Capture;
    case Captured(_, _, _) => a := WriteLegacy(true);
    case LegacyWritten(_, _, _) => a := WriteRegistry(true);
    case Restoring(_, _, _) => a := Restore;
    case Releasing(_, _) => a := Release;
  }

  // ---- A permission change that fails after its rename

  /** The files disagree: the legacy file does not show the registry's last boundary. */
  predicate FilesPart(s: State) {
    !InStep(s.legacy, s.registry)
  }

  /**
   If the legacy file is in place but its permissions fail, the writer gives up, and the files
   part exactly when the registry exists and its last boundary is not the one just written.
   */
  lemma LateLegacyWrite(s: State, s': State, p: Pid)
    requires s.At(p).Captured? && Step(s, p, WriteLegacyLate) == Some(s')
    ensures s'.registry == s.registry && s'.legacy == Last(s.At(p).next) && s'.At(p) == Releasing(s.At(p).op, Failed)
    ensures FilesPart(s') <==> s.registry.Some? && Last(s.registry.value.boundaries) != Last(s.At(p).next)
  {
  }

  lemma LateCommit(s: State, s': State, p: Pid)
    requires s.At(p).LegacyWritten? && Step(s, p, WriteRegistryLate) == Some(s')
    ensures
      var next := s.At(p).next;
      && next != [] && s'.registry == Some(RegistryFile(next[|next| - 1].name, next))
      && s'.At(p) == Restoring(s.At(p).op, next, s.At(p).snapshot)
  {
  }

  /**
   If the registry is in place but its permissions fail, the writer puts the old legacy file
   back and reports failure although its update is active; the files part exactly when the old
   legacy file did not already show the registry's new last boundary.
   */
  lemma LateRegistryWrite(s: State, s': State, s'': State, p: Pid)
    requires s.At(p).LegacyWritten?
    requires Step(s, p, WriteRegistryLate) == Some(s') && Step(s', p, Restore) == Some(s'')
    ensures s''.At(p) == Releasing(s.At(p).op, Failed) && View(s''.legacy, s''.registry) == s.At(p).next
    ensures FilesPart(s'') <==> s.At(p).snapshot != Last(s.At(p).next)
  {
    LateCommit(s, s', p);
    assert s''.registry == s'.registry && s''.legacy == s.At(p).snapshot;
  }

  lemma RunExtends(states: seq<State>, moves: seq<Move>, p: Pid, a: Action, s: State)
    requires Run(states, moves) && Step(states[|states| - 1], p, a) == Some(s)
    ensures Run(states + [s], moves + [Move(p, a)])
  {
    var longer, more := states + [s], moves + [Move(p, a)];
    forall i | 0 <= i < |more| ensures Step(longer[i], more[i].pid, more[i].action) == Some(longer[i + 1]) {
      if i < |moves| {
        assert longer[i] == states[i] && longer[i + 1] == states[i + 1];
      }
    }
  }

  /** With no files at all, one process brings an activation of b up to its capture of the legacy file. */
  lemma FirstActivationCaptured(b: Boundary) returns (states: seq<State>, moves: seq<Move>)
    ensures Run(states, moves) && states[0].registry.None? && states[0].legacy.None?
    ensures
      var s := states[|states| - 1];
      && s.legacy.None? && s.registry.None? && s.At(0) == Captured(Activate(b, false), [b], None)
  {
    var op := Activate(b, false);
    var s := State(None, None, None, map[], History([], [], 0, {}, false));
    states, moves := [s], [];
    assert Updated([], op) == Some([b]) by {
      assert Without([], b.name) + [b] == [b];
    }
    states, moves := ActsAs(states, moves, Begin(op), s.With(0, Waiting(op)));
    s := states[|states| - 1];
    states, moves := ActsAs(states, moves, Acquire, s.(lock := Some(0)).With(0, Locked(op)));
    s := states[|states| - 1];
    states, moves := ActsAs(states, moves, ReadRegistry, s.With(0, Loaded(op, [])));
    s := states[|states| - 1];
    states, moves := ActsAs(states, moves, Decide, s.With(0, Decided(op, [b])));
    s := states[|states| - 1];
    states, moves := ActsAs(states, moves, Capture, s.With(0, Captured(op, [b], None)));
  }

  lemma ActsAs(states: seq<State>, moves: seq<Move>, a: Action, s: State) returns (longer: seq<State>, more: seq<Move>)
    requires Run(states, moves) && Step(states[|states| - 1], 0, a) == Some(s)
    ensures Run(longer, more) && longer[0] == states[0] && longer[|longer| - 1] == s
  {
    RunExtends(states, moves, 0, a, s);
    longer, more := states + [s], moves + [Move(0, a)];
  }

  /** A first activation whose registry write is late: b is active, the writer reports failure, no legacy file. */
  lemma LateFirstActivation(b: Boundary) returns (states: seq<State>, moves: seq<Move>)
    ensures Run(states, moves) && states[0].registry.None? && states[0].legacy.None?
    ensures
      var s := states[|states| - 1];
      && View(s.legacy, s.registry) == [b] && s.legacy.None? && FilesPart(s)
      && s.At(0) == Releasing(Activate(b, false), Failed)
  {
    states, moves := FirstActivationCaptured(b);
    var s := states[|states| - 1];
    var written := Step(s, 0, WriteLegacy(true)).value;
    states, moves := ActsAs(states, moves, WriteLegacy(true), written);
    var late := Step(written, 0, WriteRegistryLate).value;
    states, moves := ActsAs(states, moves, WriteRegistryLate, late);
    states, moves := ActsAs(states, moves, Restore, Step(late, 0, Restore).value);
  }
}
