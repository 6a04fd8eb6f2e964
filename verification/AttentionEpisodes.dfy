/**
 Supervision-sink episodes. Each check of the sinks overwrites one stored health state; an
 event is recorded once a fingerprint of unhealthy sinks has stood long enough. The store is
 followed over whole runs of checks, for one environment and policy; in the end the checks alone
 decide when an event is recorded.
 */
module AttentionEpisodes {
  import opened Catalog
  import opened Sequences

  /** A degraded duration the configuration accepts; an absent one reads as two minutes. */
  type DegradedSeconds = d: int | 1 <= d <= 86400 witness 120

  datatype Sink = Sink(
    id: string,
    health: string,
    latestState: string,
    latestAt: Option<int>,
    degradedSeconds: DegradedSeconds)

  /** Collision-free digest of the unhealthy sinks. */
  datatype Fingerprint = Fingerprint(unhealthy: seq<Sink>)

  /** The stored runner state. A first observation that is no timestamp reads as None. */
  datatype Health =
    | Missing
    | Unhealthy(fingerprint: Fingerprint, firstObservedAt: Option<int>, lastObservedAt: int)
    | Healthy(recoveredAt: int, previousFirst: Option<int>)

  datatype SourceKey = UnhealthyKey(fingerprint: Fingerprint, firstObservedAt: int) | RecoveredKey(since: int)

  datatype Event =
    | WorkerUnhealthy(key: SourceKey, at: int, observedSeconds: int)
    | WorkerRecovered(key: SourceKey, at: int)

  datatype Item = Item(firstSeen: int, open: bool)

  /** A state written at some time. */
  datatype Stored = Stored(at: int, health: Health)

  /** The store, with the log of health states written so far and, per event, how long it was. */
  datatype World = World(health: Health, item: Option<Item>, events: seq<Event>, log: seq<Stored>, logged: seq<nat>)

  datatype Check = SinksChecked(at: int, sinks: seq<Sink>) | SinksHealthy(at: int, recoveryEnabled: bool)

  const START := World(Missing, None, [], [], [])

  predicate IsUnhealthy(s: Sink) {
    s.health != "healthy"
  }

  /** The least of the degraded durations. */
  function Shortest(sinks: seq<Sink>): int
    requires sinks != []
  {
    var last := sinks[|sinks| - 1].degradedSeconds;
    if |sinks| == 1 then last
    else
      var rest := Shortest(sinks[..|sinks| - 1]);
      if last < rest then last else rest
  }

  lemma {:induction false} ShortestIsOneOfThem(sinks: seq<Sink>)
    requires sinks != []
    ensures exists i | 0 <= i < |sinks| :: sinks[i].degradedSeconds == Shortest(sinks)
    ensures forall i | 0 <= i < |sinks| :: Shortest(sinks) <= sinks[i].degradedSeconds
  {
    if |sinks| == 1 {
      assert sinks[0].degradedSeconds == Shortest(sinks);
    } else {
      var init := sinks[..|sinks| - 1];
      ShortestIsOneOfThem(init);
      var i :| 0 <= i < |init| && init[i].degradedSeconds == Shortest(init);
      assert sinks[i].degradedSeconds == Shortest(sinks) || sinks[|sinks| - 1].degradedSeconds == Shortest(sinks);
      assert forall j | 0 <= j < |init| :: init[j] == sinks[j];
    }
  }

  /** Whole seconds from `from` to `until`, never negative. */
  function Elapsed(from: int, until: int): (s: nat)
    ensures until >= from ==> s * 1000 <= until - from < (s + 1) * 1000
  {
    if until < from then 0 else (until - from) / 1000
  }

  predicate Continues(h: Health, f: Fingerprint) {
    h.Unhealthy? && h.fingerprint == f && h.firstObservedAt.Some?
  }

  function Observed(h: Health, f: Fingerprint, at: int): Health {
    Unhealthy(f, Some(if Continues(h, f) then h.firstObservedAt.value else at), at)
  }

  function Raise(item: Option<Item>, at: int): Option<Item> {
    Some(Item(if item.Some? then item.value.firstSeen else at, true))
  }

  /** One check, as a function of the store before it. */
  function Step(w: World, c: Check): World {
    match c
    case SinksChecked(at, sinks) =>
      var unhealthy := Filter(sinks, IsUnhealthy);
      if unhealthy == [] then w
      else
        var h := Observed(w.health, Fingerprint(unhealthy), at);
        var stored := w.(health := h, log := w.log + [Stored(at, h)]);
        var observed := Elapsed(h.firstObservedAt.value, at);
        if observed < Shortest(unhealthy) then stored
        else
          stored.(events := w.events
            + [WorkerUnhealthy(UnhealthyKey(h.fingerprint, h.firstObservedAt.value), at, observed)],
                  logged := w.logged + [|stored.log|],
                  item := Raise(w.item, at))
    case SinksHealthy(at, recoveryEnabled) =>
      var h := Healthy(at, if w.health.Unhealthy? then w.health.firstObservedAt else None);
      var stored := w.(health := h, log := w.log + [Stored(at, h)], item := if w.item.Some?
        then Some(w.item.value.(open := false)) else None);
      if !(w.item.Some? && w.health.Unhealthy? && recoveryEnabled) then stored
      else
        stored.(events := w.events
          + [WorkerRecovered(RecoveredKey(w.health.firstObservedAt.GetOr(w.item.value.firstSeen)), at)],
                logged := w.logged + [|stored.log|])
  }

  /** The store that the checks read and overwrite. */
  class Store {
    var health: Health
    var item: Option<Item>
    var events: seq<Event>
    ghost var log: seq<Stored>
    ghost var logged: seq<nat>

    ghost function View(): World
      reads this
    {
      World(health, item, events, log, logged)
    }

    constructor ()
      ensures View() == START
    {
      health, item, events, log, logged := Missing, None, [], [], [];
    }

    method RecordUnhealthySupervisionSinkAttention(now: int, sinks: seq<Sink>)
      modifies this
      ensures View() == Step(old(View()), SinksChecked(now, sinks))
    {
      ghost var given := View();
      var unhealthy := Filter(sinks, IsUnhealthy);
      if unhealthy == [] {
        return;
      }
      var episode := Fingerprint(unhealthy);
      var continuing := health.Unhealthy? && health.fingerprint == episode && health.firstObservedAt.Some?;
      var first := if continuing then health.firstObservedAt.value else now;
      health := Unhealthy(episode, Some(first), now);
      log := log + [Stored(now, health)];
      var degraded := unhealthy[0].degradedSeconds;
      var i := 1;
      while i < |unhealthy|
        invariant 1 <= i <= |unhealthy|
        invariant degraded == Shortest(unhealthy[..i])
      {
        assert unhealthy[..i + 1][..i] == unhealthy[..i];
        degraded := if unhealthy[i].degradedSeconds < degraded then unhealthy[i].degradedSeconds else degraded;
        i := i + 1;
      }
      assert unhealthy[..i] == unhealthy;
      var observed := Elapsed(first, now);
      assert health == Observed(given.health, episode, now);
      if observed < degraded {
        assert View() == given.(health := health, log := log);
        return;
      }
      events := events + [WorkerUnhealthy(UnhealthyKey(episode, first), now, observed)];
      logged := logged + [|log|];
      item := Raise(item, now);
    }

    method ResolveHealthySupervisionSinkAttention(now: int, recoveryEnabled: bool)
      modifies this
      ensures View() == Step(old(View()), SinksHealthy(now, recoveryEnabled))
    {
      var previous := health;
      var raised := item;
      if raised.Some? && raised.value.open {
        item := Some(raised.value.(open := false));
      }
      health := Healthy(now, if previous.Unhealthy? then previous.firstObservedAt else None);
      log := log + [Stored(now, health)];
      if raised.Some? && previous.Unhealthy? && recoveryEnabled {
        events := events + [WorkerRecovered(RecoveredKey(previous.firstObservedAt.GetOr(raised.value.firstSeen)), now)];
        logged := logged + [|log|];
      }
    }
  }

  // ---- Runs

  function TimeOf(c: Check): int {
    c.at
  }

  /** The clock never runs backwards over the run. */
  predicate Ordered(run: seq<Check>) {
    forall i, j | 0 <= i < j < |run| :: TimeOf(run[i]) <= TimeOf(run[j])
  }

  function After(run: seq<Check>): World {
    if run == [] then START else Step(After(run[..|run| - 1]), run[|run| - 1])
  }

  /** From entry k up to entry n of the log, the sinks were unhealthy with this fingerprint. */
  ghost predicate UnhealthySince(log: seq<Stored>, k: nat, n: nat, f: Fingerprint, first: int) {
    && k < n <= |log|
    && log[k].at == first
    && forall i | k <= i < n ::
         log[i].health.Unhealthy? && log[i].health.fingerprint == f && log[i].health.firstObservedAt == Some(first)
  }

  /** The first n log entries end in an episode that began at `first`; what precedes it is no later. */
  ghost predicate EpisodeFrom(log: seq<Stored>, k: nat, n: nat, f: Fingerprint, first: int) {
    UnhealthySince(log, k, n, f, first) && forall i | 0 <= i < k :: log[i].at <= first
  }

  ghost predicate InEpisode(log: seq<Stored>, n: nat, f: Fingerprint, first: int) {
    exists k: nat :: EpisodeFrom(log, k, n, f, first)
  }

  /** The event was recorded just after entry n - 1 of the log was written. */
  ghost predicate EventJustified(log: seq<Stored>, n: nat, e: Event) {
    && 0 < n <= |log|
    && log[n - 1].at == e.at
    && match e
       case WorkerUnhealthy(key, at, observedSeconds) =>
         && key.UnhealthyKey?
         && InEpisode(log, n, key.fingerprint, key.firstObservedAt)
         && observedSeconds * 1000 <= at - key.firstObservedAt
         && LongEnough(key.fingerprint, observedSeconds)
       case WorkerRecovered(key, _) =>
         && key.RecoveredKey?
         && log[n - 1].health.Healthy?
         && n >= 2
         && log[n - 2].health.Unhealthy?
         && log[n - 2].health.firstObservedAt == Some(key.since)
  }

  /** At least one of the sinks is allowed no longer degraded stretch than this. */
  ghost predicate LongEnough(f: Fingerprint, seconds: int) {
    exists i | 0 <= i < |f.unhealthy| :: f.unhealthy[i].degradedSeconds <= seconds
  }

  ghost predicate TimesSorted(log: seq<Stored>, clock: int) {
    && (forall i, j | 0 <= i < j < |log| :: log[i].at <= log[j].at)
    && (forall i | 0 <= i < |log| :: log[i].at <= clock)
  }

  ghost predicate Invariant(w: World, clock: int) {
    && (w.health.Missing? <==> w.log == [])
    && (w.log != [] ==> w.log[|w.log| - 1].health == w.health)
    && TimesSorted(w.log, clock)
    && (w.health.Unhealthy? ==>
          && w.health.firstObservedAt.Some?
          && InEpisode(w.log, |w.log|, w.health.fingerprint, w.health.firstObservedAt.value))
    && Unbroken(w.log)
    && |w.logged| == |w.events|
    && (forall i, j | 0 <= i < j < |w.logged| :: w.logged[i] < w.logged[j])
    && (forall i | 0 <= i < |w.events| :: EventJustified(w.log, w.logged[i], w.events[i]))
  }

  /** An unhealthy state belongs to the episode of the state before it, or starts one. */
  ghost predicate Unbroken(log: seq<Stored>) {
    forall i | 0 <= i < |log| - 1 :: Follows(log[i], log[i + 1])
  }

  ghost predicate Follows(a: Stored, b: Stored) {
    b.health.Unhealthy? ==>
      b.health.firstObservedAt ==
        if Continues(a.health, b.health.fingerprint) then a.health.firstObservedAt else Some(b.at)
  }

  ghost predicate UnhealthyWith(h: Health, f: Fingerprint, first: int) {
    h.Unhealthy? && h.fingerprint == f && h.firstObservedAt == Some(first)
  }

  lemma EpisodeGrows(log: seq<Stored>, n: nat, f: Fingerprint, first: int, next: Stored)
    requires InEpisode(log, n, f, first)
    ensures InEpisode(log + [next], n, f, first)
    ensures n == |log| && UnhealthyWith(next.health, f, first) ==> InEpisode(log + [next], n + 1, f, first)
  {
    var k: nat :| EpisodeFrom(log, k, n, f, first);
    assert EpisodeFrom(log + [next], k, n, f, first);
    if n == |log| && UnhealthyWith(next.health, f, first) {
      assert EpisodeFrom(log + [next], k, n + 1, f, first);
    }
  }

  lemma EpisodeStarts(log: seq<Stored>, f: Fingerprint, at: int)
    requires forall i | 0 <= i < |log| :: log[i].at <= at
    ensures InEpisode(log + [Stored(at, Unhealthy(f, Some(at), at))], |log| + 1, f, at)
  {
    var next := Stored(at, Unhealthy(f, Some(at), at));
    assert EpisodeFrom(log + [next], |log|, |log| + 1, f, at);
  }

  lemma JustificationsLast(log: seq<Stored>, n: nat, e: Event, next: Stored)
    requires EventJustified(log, n, e)
    ensures EventJustified(log + [next], n, e)
  {
    if e.WorkerUnhealthy? {
      EpisodeGrows(log, n, e.key.fingerprint, e.key.firstObservedAt, next);
    }
  }

  /** The episode of a state observed now, continued or new. */
  lemma ObservedInEpisode(w: World, clock: int, f: Fingerprint, at: int)
    requires Invariant(w, clock) && clock <= at
    ensures
      var h := Observed(w.health, f, at);
      InEpisode(w.log + [Stored(at, h)], |w.log| + 1, f, h.firstObservedAt.value) && h.firstObservedAt.value <= at
  {
    if Continues(w.health, f) {
      EpisodeGrows(w.log, |w.log|, f, w.health.firstObservedAt.value, Stored(at, Observed(w.health, f, at)));
      var k: nat :| EpisodeFrom(w.log, k, |w.log|, f, w.health.firstObservedAt.value);
      assert w.log[k].at == w.health.firstObservedAt.value;
    } else {
      EpisodeStarts(w.log, f, at);
    }
  }

  lemma UnhealthyStepJustified(w: World, clock: int, at: int, sinks: seq<Sink>)
    requires Invariant(w, clock) && clock <= at && Filter(sinks, IsUnhealthy) != []
    ensures
      var v := Step(w, SinksChecked(at, sinks));
      && InEpisode(v.log, |v.log|, v.health.fingerprint, v.health.firstObservedAt.value)
      && (|v.events| > |w.events| ==> EventJustified(v.log, |v.log|, v.events[|w.events|]))
  {
    var unhealthy := Filter(sinks, IsUnhealthy);
    ObservedInEpisode(w, clock, Fingerprint(unhealthy), at);
    ShortestIsOneOfThem(unhealthy);
  }

  lemma HealthyStepJustified(w: World, clock: int, at: int, recoveryEnabled: bool)
    requires Invariant(w, clock) && clock <= at
    ensures
      var v := Step(w, SinksHealthy(at, recoveryEnabled));
      |v.events| > |w.events| ==> EventJustified(v.log, |v.log|, v.events[|w.events|])
  {
  }

  /** What one check writes: at most one state, and at most one event, recorded after it. */
  lemma StepWrites(w: World, c: Check)
    ensures
      var v := Step(w, c);
      && (v == w || v.log == w.log + [Stored(TimeOf(c), v.health)])
      && ((v.events == w.events && v.logged == w.logged) || RecordedOneMore(w, v))
      && (v != w ==> !v.health.Missing?)
  {
  }

  predicate RecordedOneMore(w: World, v: World) {
    |v.events| == |w.events| + 1 && w.events == v.events[..|w.events|] && v.logged == w.logged + [|v.log|]
  }

  lemma EarlierEventsStay(w: World, clock: int, c: Check)
    requires Invariant(w, clock)
    ensures forall i | 0 <= i < |w.events| :: EventJustified(Step(w, c).log, w.logged[i], w.events[i])
  {
    StepWrites(w, c);
    if Step(w, c) != w {
      forall i | 0 <= i < |w.events| ensures EventJustified(Step(w, c).log, w.logged[i], w.events[i]) {
        JustificationsLast(w.log, w.logged[i], w.events[i], Stored(TimeOf(c), Step(w, c).health));
      }
    }
  }

  ghost predicate LogHolds(w: World, clock: int) {
    && (w.health.Missing? <==> w.log == [])
    && (w.log != [] ==> w.log[|w.log| - 1].health == w.health)
    && TimesSorted(w.log, clock)
    && Unbroken(w.log)
  }

  lemma StepKeepsLog(w: World, clock: int, c: Check)
    requires Invariant(w, clock) && clock <= TimeOf(c)
    ensures LogHolds(Step(w, c), TimeOf(c))
  {
    StepWrites(w, c);
    var v := Step(w, c);
    if v != w {
      assert forall i | 0 <= i < |w.log| :: v.log[i] == w.log[i];
      forall i | 0 <= i < |v.log| - 1 ensures Follows(v.log[i], v.log[i + 1]) {
        if i < |w.log| - 1 {
          assert Follows(w.log[i], w.log[i + 1]);
        }
      }
    }
  }

  ghost predicate EventsHold(w: World) {
    && |w.logged| == |w.events|
    && (forall i, j | 0 <= i < j < |w.logged| :: w.logged[i] < w.logged[j])
    && (forall i | 0 <= i < |w.events| :: EventJustified(w.log, w.logged[i], w.events[i]))
  }

  lemma NewEventJustified(w: World, clock: int, c: Check)
    requires Invariant(w, clock) && clock <= TimeOf(c)
    ensures
      var v := Step(w, c);
      |v.events| > |w.events| ==> EventJustified(v.log, |v.log|, v.events[|w.events|])
  {
    match c
    case SinksChecked(at, sinks) =>
      if Filter(sinks, IsUnhealthy) != [] {
        UnhealthyStepJustified(w, clock, at, sinks);
      }
    case SinksHealthy(at, recoveryEnabled) => HealthyStepJustified(w, clock, at, recoveryEnabled);
  }

  lemma StepKeepsEvents(w: World, clock: int, c: Check)
    requires Invariant(w, clock) && clock <= TimeOf(c)
    ensures EventsHold(Step(w, c))
  {
    StepWrites(w, c);
    EarlierEventsStay(w, clock, c);
    NewEventJustified(w, clock, c);
    var v := Step(w, c);
    if v != w {
      forall i | 0 <= i < |w.logged| ensures w.logged[i] < |v.log| {
        assert EventJustified(w.log, w.logged[i], w.events[i]);
      }
    }
  }

  lemma StepKeepsEpisode(w: World, clock: int, c: Check)
    requires Invariant(w, clock) && clock <= TimeOf(c)
    ensures
      var v := Step(w, c);
      v.health.Unhealthy? ==>
        v.health.firstObservedAt.Some?
          && InEpisode(v.log, |v.log|, v.health.fingerprint, v.health.firstObservedAt.value)
  {
    if c.SinksChecked? && Filter(c.sinks, IsUnhealthy) != [] {
      UnhealthyStepJustified(w, clock, c.at, c.sinks);
    }
  }

  lemma StepKeepsInvariant(w: World, clock: int, c: Check)
    requires Invariant(w, clock) && clock <= TimeOf(c)
    ensures Invariant(Step(w, c), TimeOf(c))
  {
    StepKeepsLog(w, clock, c);
    StepKeepsEvents(w, clock, c);
    StepKeepsEpisode(w, clock, c);
  }

  lemma {:induction false} RunKeepsInvariant(run: seq<Check>)
    requires Ordered(run)
    ensures Invariant(After(run), if run == [] then 0 else TimeOf(run[|run| - 1]))
  {
    if run != [] {
      var init := run[..|run| - 1];
      RunKeepsInvariant(init);
      if init == [] {
        assert Invariant(START, TimeOf(run[0]));
        StepKeepsInvariant(START, TimeOf(run[0]), run[0]);
        assert After(init) == START;
      } else {
        StepKeepsInvariant(After(init), TimeOf(init[|init| - 1]), run[|run| - 1]);
      }
    }
  }

  /** How many states had been written when event e was recorded. */
  function Entries(w: World, e: nat): nat {
    if e < |w.logged| then w.logged[e] else 0
  }

  /**
   An event means an unbroken episode: at least the shortest degraded duration has passed
   since its first observation, and every state stored after that moment, up to the event, was
   unhealthy with the same fingerprint.
   */
  lemma EventMeansUnbrokenEpisode(run: seq<Check>, e: nat)
    requires Ordered(run) && e < |After(run).events| && After(run).events[e].WorkerUnhealthy?
    ensures
      var w, n := After(run), Entries(After(run), e);
      var event := w.events[e];
      && event.key.UnhealthyKey? && 0 < n <= |w.log|
      && event.observedSeconds * 1000 <= event.at - event.key.firstObservedAt
      && LongEnough(event.key.fingerprint, event.observedSeconds)
      && InEpisode(w.log, n, event.key.fingerprint, event.key.firstObservedAt)
      && (forall i | 0 <= i < n && w.log[i].at > event.key.firstObservedAt ::
            w.log[i].health.Unhealthy? && w.log[i].health.fingerprint == event.key.fingerprint)
  {
    RunKeepsInvariant(run);
    var w := After(run);
    assert EventJustified(w.log, w.logged[e], w.events[e]);
  }

  lemma {:induction false} SameEpisodeAlong(log: seq<Stored>, f: Fingerprint, first: int, m: nat, n: nat)
    requires Unbroken(log) && m <= n < |log|
    requires forall i | m <= i <= n :: log[i].health.Unhealthy? && log[i].health.fingerprint == f
    requires log[m].health.firstObservedAt == Some(first)
    ensures log[n].health.firstObservedAt == Some(first)
    decreases n - m
  {
    if m < n {
      SameEpisodeAlong(log, f, first, m, n - 1);
      assert Follows(log[n - 1], log[n - 1 + 1]);
    }
  }

  /** Every state from event a's own up to event b's is unhealthy with a's fingerprint. */
  ghost predicate NothingBetween(w: World, a: nat, b: nat)
    requires a < |w.events| && w.events[a].key.UnhealthyKey?
  {
    forall i | 0 <= Entries(w, a) - 1 <= i < Entries(w, b) && i < |w.log| ::
      w.log[i].health.Unhealthy? && w.log[i].health.fingerprint == w.events[a].key.fingerprint
  }

  /** The state an event was recorded for, strictly later than the first observation. */
  lemma UnhealthyEventKey(run: seq<Check>, e: nat)
    requires Ordered(run) && e < |After(run).events| && After(run).events[e].WorkerUnhealthy?
    ensures
      var w, n := After(run), Entries(After(run), e);
      && Unbroken(w.log)
      && w.events[e].key.UnhealthyKey? && 0 < n <= |w.log|
      && UnhealthyWith(w.log[n - 1].health, w.events[e].key.fingerprint, w.events[e].key.firstObservedAt)
      && (forall i | n - 1 <= i < |w.log| :: w.log[i].at > w.events[e].key.firstObservedAt)
  {
    EventMeansUnbrokenEpisode(run, e);
    RunKeepsInvariant(run);
    var w := After(run);
    assert EventJustified(w.log, w.logged[e], w.events[e]);
  }

  /**
   Two events carry one source key if and only if they belong to one episode: every state
   stored from the first event's own up to the second's is unhealthy with its fingerprint.
   */
  lemma OneKeyPerEpisode(run: seq<Check>, a: nat, b: nat)
    requires Ordered(run) && a < |After(run).events| && b < |After(run).events|
    requires After(run).events[a].WorkerUnhealthy? && After(run).events[b].WorkerUnhealthy?
    requires Entries(After(run), a) <= Entries(After(run), b)
    ensures After(run).events[a].key.UnhealthyKey?
    ensures After(run).events[a].key == After(run).events[b].key <==> NothingBetween(After(run), a, b)
  {
    UnhealthyEventKey(run, a);
    UnhealthyEventKey(run, b);
    EventMeansUnbrokenEpisode(run, b);
    var w := After(run);
    var m, n := Entries(w, a), Entries(w, b);
    if NothingBetween(w, a, b) {
      SameEpisodeAlong(w.log, w.events[a].key.fingerprint, w.events[a].key.firstObservedAt, m - 1, n - 1);
    }
  }

  /** A stored recovery always starts a new episode: no event after it repeats an earlier key. */
  lemma RecoveryStartsNewEpisode(run: seq<Check>, a: nat, b: nat, i: nat)
    requires Ordered(run) && a < |After(run).events| && b < |After(run).events|
    requires After(run).events[a].WorkerUnhealthy? && After(run).events[b].WorkerUnhealthy?
    requires Entries(After(run), a) <= i < Entries(After(run), b) && i < |After(run).log|
    requires After(run).log[i].health.Healthy?
    ensures After(run).events[a].key != After(run).events[b].key
  {
    OneKeyPerEpisode(run, a, b);
    UnhealthyEventKey(run, a);
  }

  /**
   A recovery event names the first observation of the episode it ends, and between two of
   them some unhealthy state was stored.
   */
  lemma RecoveriesSeparatedByUnhealth(run: seq<Check>, a: nat, b: nat)
    requires Ordered(run) && a < b < |After(run).events|
    requires After(run).events[a].WorkerRecovered? && After(run).events[b].WorkerRecovered?
    ensures
      var w := After(run);
      && 2 <= Entries(w, b) <= |w.log|
      && w.log[Entries(w, b) - 2].health.Unhealthy?
      && w.events[b].key == RecoveredKey(w.log[Entries(w, b) - 2].health.firstObservedAt.GetOr(0))
      && exists i | Entries(w, a) <= i < Entries(w, b) && i < |w.log| :: w.log[i].health.Unhealthy?
  {
    RunKeepsInvariant(run);
    var w := After(run);
    assert EventJustified(w.log, w.logged[a], w.events[a]);
    assert EventJustified(w.log, w.logged[b], w.events[b]);
    assert w.log[w.logged[a] - 1].health.Healthy? && w.log[w.logged[b] - 2].health.Unhealthy?;
  }

  // ---- Exactly when an event is recorded, from the checks alone

  /** The sinks a check reports as anything but healthy, in the order it lists them. */
  function Unwell(c: Check): seq<Sink> {
    if c.SinksChecked? then Filter(c.sinks, (s: Sink) => s.health != "healthy") else []
  }

  /** From check k on every check reports these sinks; one that finds all sinks healthy stores nothing. */
  predicate Stands(run: seq<Check>, k: nat, u: seq<Sink>) {
    forall i | k <= i < |run| :: run[i].SinksChecked? && (Unwell(run[i]) == u || Unwell(run[i]) == [])
  }

  /** The episode of u that is open after the run began with check k. */
  ghost predicate BeganAt(run: seq<Check>, k: nat, u: seq<Sink>) {
    && k < |run| && u != [] && Unwell(run[k]) == u && Stands(run, k, u)
    && forall j | 0 <= j < k && Unwell(run[j]) == u :: !Stands(run, j, u)
  }

  ghost predicate EpisodeOpen(run: seq<Check>) {
    exists k: nat, u :: BeganAt(run, k, u)
  }

  lemma UnwellIsUnhealthy(c: Check)
    ensures c.SinksChecked? ==> Unwell(c) == Filter(c.sinks, IsUnhealthy)
  {
    if c.SinksChecked? {
      SameFilter(c.sinks, (s: Sink) => s.health != "healthy", IsUnhealthy);
    }
  }

  lemma AfterNext(init: seq<Check>, c: Check)
    ensures After(init + [c]) == Step(After(init), c)
  {
    assert (init + [c])[..|init|] == init;
  }

  lemma StandsNext(init: seq<Check>, c: Check, k: nat, u: seq<Sink>)
    requires k <= |init|
    ensures Stands(init + [c], k, u) <==> Stands(init, k, u) && c.SinksChecked? && (Unwell(c) == u || Unwell(c) == [])
  {
    var run := init + [c];
    assert run[|init|] == c && forall i | 0 <= i < |init| :: run[i] == init[i];
  }

  /** A check that finds every sink healthy leaves the episode open or not, as it was. */
  lemma SilentCheck(init: seq<Check>, c: Check, k: nat, u: seq<Sink>)
    requires c.SinksChecked? && Unwell(c) == []
    ensures BeganAt(init + [c], k, u) <==> BeganAt(init, k, u)
  {
    var run := init + [c];
    forall j: nat | j <= |init| ensures Stands(run, j, u) <==> Stands(init, j, u) {
      StandsNext(init, c, j, u);
    }
    assert forall j | 0 <= j < |init| :: run[j] == init[j];
  }

  /** A check that finds unhealthy sinks continues the episode of the same sinks or begins one. */
  lemma ReportingCheck(init: seq<Check>, c: Check, k: nat)
    requires Unwell(c) != []
    ensures BeganAt(init, k, Unwell(c)) ==> BeganAt(init + [c], k, Unwell(c))
    ensures (forall j: nat :: !BeganAt(init, j, Unwell(c))) ==> BeganAt(init + [c], |init|, Unwell(c))
  {
    var run, u := init + [c], Unwell(c);
    forall j: nat | j <= |init| ensures Stands(run, j, u) <==> Stands(init, j, u) {
      StandsNext(init, c, j, u);
    }
    assert run[|init|] == c && forall j | 0 <= j < |init| :: run[j] == init[j];
    if forall j: nat :: !BeganAt(init, j, u) {
      forall j | 0 <= j < |init| && Unwell(run[j]) == u ensures !Stands(run, j, u) {
        NoEarlierStart(init, j, u);
      }
    }
  }

  lemma {:induction false} NoEarlierStart(run: seq<Check>, j: nat, u: seq<Sink>)
    requires u != [] && j < |run| && Unwell(run[j]) == u && forall k: nat :: !BeganAt(run, k, u)
    ensures !Stands(run, j, u)
  {
    if Stands(run, j, u) {
      assert !BeganAt(run, j, u);
      var i :| 0 <= i < j && Unwell(run[i]) == u && Stands(run, i, u);
      NoEarlierStart(run, i, u);
    }
  }

  /** At most one episode is open, with one first check. */
  lemma OneEpisode(run: seq<Check>, k: nat, u: seq<Sink>, m: nat, v: seq<Sink>)
    requires BeganAt(run, k, u) && BeganAt(run, m, v)
    ensures k == m && u == v
  {
  }

  /** The stored health is the open episode, from its first check on. */
  ghost predicate HealthTells(run: seq<Check>, h: Health) {
    if h.Unhealthy? then
      && h.firstObservedAt.Some?
      && exists k: nat :: BeganAt(run, k, h.fingerprint.unhealthy) && TimeOf(run[k]) == h.firstObservedAt.value
    else !EpisodeOpen(run)
  }

  lemma {:induction false} HealthAlongRun(run: seq<Check>)
    ensures HealthTells(run, After(run).health)
  {
    if run != [] {
      var init, c := run[..|run| - 1], run[|run| - 1];
      assert run == init + [c];
      HealthAlongRun(init);
      HealthAfterCheck(init, c);
    }
  }

  lemma HealthAfterCheck(init: seq<Check>, c: Check)
    requires HealthTells(init, After(init).health)
    ensures HealthTells(init + [c], After(init + [c]).health)
  {
    AfterNext(init, c);
    UnwellIsUnhealthy(c);
    var h := After(init).health;
    if c.SinksHealthy? {
      RecoveryCloses(init, c);
    } else if Unwell(c) == [] {
      forall k: nat, u ensures BeganAt(init + [c], k, u) <==> BeganAt(init, k, u) {
        SilentCheck(init, c, k, u);
      }
      if h.Unhealthy? {
        var k: nat :| BeganAt(init, k, h.fingerprint.unhealthy) && TimeOf(init[k]) == h.firstObservedAt.value;
        assert BeganAt(init + [c], k, h.fingerprint.unhealthy);
      }
    } else if Continues(h, Fingerprint(Unwell(c))) {
      var k: nat :| BeganAt(init, k, h.fingerprint.unhealthy) && TimeOf(init[k]) == h.firstObservedAt.value;
      ReportingCheck(init, c, k);
      assert (init + [c])[k] == init[k];
    } else {
      OtherEpisode(init, h, Unwell(c));
      ReportingCheck(init, c, |init|);
    }
  }

  /** Where the stored state does not continue an episode of u, none is open. */
  lemma OtherEpisode(run: seq<Check>, h: Health, u: seq<Sink>)
    requires HealthTells(run, h) && !Continues(h, Fingerprint(u))
    ensures forall k: nat :: !BeganAt(run, k, u)
  {
    forall k: nat ensures !BeganAt(run, k, u) {
      if h.Unhealthy? {
        var m: nat :| BeganAt(run, m, h.fingerprint.unhealthy);
      }
    }
  }

  lemma RecoveryCloses(init: seq<Check>, c: Check)
    requires c.SinksHealthy?
    ensures !EpisodeOpen(init + [c])
  {
    forall k: nat, u ensures !BeganAt(init + [c], k, u) {
      assert (init + [c])[|init|] == c;
    }
  }

  /** The last check is due: some sink of the open episode has been unhealthy for as long as it may be. */
  ghost predicate Due(run: seq<Check>) {
    && run != [] && Unwell(run[|run| - 1]) != []
    && exists k: nat, i: nat :: DueFor(run, k, i)
  }

  ghost predicate DueFor(run: seq<Check>, k: nat, i: nat) {
    var u := if run == [] then [] else Unwell(run[|run| - 1]);
    && BeganAt(run, k, u) && i < |u|
    && TimeOf(run[|run| - 1]) - TimeOf(run[k]) >= 1000 * u[i].degradedSeconds
  }

  lemma ElapsedReaches(from: int, until: int, seconds: int)
    requires seconds >= 1
    ensures Elapsed(from, until) >= seconds <==> until - from >= 1000 * seconds
  {
  }

  /** Some sink has been unhealthy as long as it may be exactly when the shortest duration is over. */
  lemma DueAfterShortest(run: seq<Check>, k: nat)
    requires run != [] && BeganAt(run, k, Unwell(run[|run| - 1]))
    ensures Due(run) <==>
      Elapsed(TimeOf(run[k]), TimeOf(run[|run| - 1])) >= Shortest(Unwell(run[|run| - 1]))
  {
    var u, from, until := Unwell(run[|run| - 1]), TimeOf(run[k]), TimeOf(run[|run| - 1]);
    ShortestIsOneOfThem(u);
    ElapsedReaches(from, until, Shortest(u));
    if Elapsed(from, until) >= Shortest(u) {
      var i :| 0 <= i < |u| && u[i].degradedSeconds == Shortest(u);
      assert DueFor(run, k, i);
    }
    if Due(run) {
      var m: nat, i: nat :| DueFor(run, m, i);
      OneEpisode(run, k, u, m, u);
    }
  }

  /** A check that finds unhealthy sinks records the event once their shortest duration is over. */
  lemma ReportedStep(w: World, c: Check, first: int)
    requires c.SinksChecked? && Unwell(c) != []
    requires Step(w, c).health.Unhealthy? && Step(w, c).health.firstObservedAt == Some(first)
    ensures
      var v, seconds := Step(w, c), Elapsed(first, c.at);
      if seconds < Shortest(Unwell(c)) then v.events == w.events && v.item == w.item
      else
        && v.events == w.events
             + [WorkerUnhealthy(UnhealthyKey(Fingerprint(Unwell(c)), first), c.at, seconds)]
        && v.item == Raise(w.item, c.at)
  {
    UnwellIsUnhealthy(c);
  }

  /** What the last check of a run records when it reports an episode that began at `first`. */
  ghost predicate Records(w: World, v: World, c: Check, first: int, due: bool) {
    if due then
      && v.events == w.events
           + [WorkerUnhealthy(UnhealthyKey(Fingerprint(Unwell(c)), first), c.at, (c.at - first) / 1000)]
      && v.item == Raise(w.item, c.at)
    else v.events == w.events && v.item == w.item
  }

  lemma RecordsInTime(w: World, c: Check, first: int)
    requires c.SinksChecked? && Unwell(c) != []
    requires UnhealthyWith(Step(w, c).health, Fingerprint(Unwell(c)), first)
    ensures Records(w, Step(w, c), c, first, Elapsed(first, c.at) >= Shortest(Unwell(c)))
  {
    ReportedStep(w, c, first);
    DegradedIsPositive(Unwell(c));
  }

  /** Liveness, seen from the first check of the episode. */
  lemma EventOfEpisode(init: seq<Check>, c: Check, k: nat, first: int)
    requires c.SinksChecked? && BeganAt(init + [c], k, Unwell(c)) && first == TimeOf((init + [c])[k])
    ensures Records(After(init), After(init + [c]), c, first, Due(init + [c]))
  {
    EpisodeIsStored(init + [c], k, Unwell(c));
    DueAfterShortest(init + [c], k);
    AfterNext(init, c);
    RecordsInTime(After(init), c, first);
  }

  lemma DegradedIsPositive(sinks: seq<Sink>)
    requires sinks != []
    ensures Shortest(sinks) >= 1
  {
    ShortestIsOneOfThem(sinks);
  }

  lemma NothingDue(init: seq<Check>, c: Check)
    requires c.SinksChecked? && Unwell(c) == []
    ensures !Due(init + [c]) && After(init + [c]) == After(init)
  {
    assert (init + [c])[|init|] == c;
    AfterNext(init, c);
    UnwellIsUnhealthy(c);
  }

  /** Some check began the episode that a check with unhealthy sinks belongs to. */
  lemma ReportedEpisode(init: seq<Check>, c: Check) returns (k: nat)
    requires c.SinksChecked? && Unwell(c) != []
    ensures BeganAt(init + [c], k, Unwell(c))
  {
    if j: nat :| BeganAt(init, j, Unwell(c)) {
      k := j;
    } else {
      k := |init|;
    }
    ReportingCheck(init, c, k);
  }

  /**
   Liveness and its limit: a check appends an unhealthy event, and leaves the item open, if and
   only if it is due. The event carries the episode's sinks and the time of its first check, its
   own time and the whole seconds in between.
   */
  lemma UnhealthyEventExactly(init: seq<Check>, c: Check) returns (k: nat, first: int)
    requires c.SinksChecked?
    ensures Due(init + [c]) ==> BeganAt(init + [c], k, Unwell(c)) && first == TimeOf((init + [c])[k])
    ensures Due(init + [c]) ==>
      var w, v := After(init), After(init + [c]);
      && v.events == w.events
           + [WorkerUnhealthy(UnhealthyKey(Fingerprint(Unwell(c)), first), c.at, (c.at - first) / 1000)]
      && v.item == Some(Item(if w.item.Some? then w.item.value.firstSeen else c.at, true))
    ensures !Due(init + [c]) ==>
      After(init + [c]).events == After(init).events && After(init + [c]).item == After(init).item
  {
    if Unwell(c) == [] {
      NothingDue(init, c);
      k, first := 0, 0;
    } else {
      k := ReportedEpisode(init, c);
      first := TimeOf((init + [c])[k]);
      EventOfEpisode(init, c, k, first);
    }
  }

  /** What a check stores carries the check's time, and a recovery the start of the episode it ends. */
  lemma StoredTimes(w: World, c: Check)
    ensures
      var h := Step(w, c).health;
      if c.SinksHealthy? then
        h == Healthy(c.at, if w.health.Unhealthy? then w.health.firstObservedAt else None)
      else if Unwell(c) == [] then h == w.health
      else h.Unhealthy? && h.lastObservedAt == c.at && h.fingerprint.unhealthy == Unwell(c)
  {
    UnwellIsUnhealthy(c);
  }

  // ---- The item and the recovery event

  /** Check j was due. */
  ghost predicate RaisedAt(run: seq<Check>, j: nat) {
    j < |run| && Due(run[..j + 1])
  }

  ghost predicate FirstRaisedAt(run: seq<Check>, j: nat) {
    RaisedAt(run, j) && forall i: nat | i < j :: !RaisedAt(run, i)
  }

  ghost predicate RaisedSince(run: seq<Check>, j: nat) {
    RaisedAt(run, j) && forall i | j < i < |run| :: run[i].SinksChecked?
  }

  /** The item exists since the first check that was due, and is open unless a recovery came after the last. */
  ghost predicate ItemTells(run: seq<Check>, item: Option<Item>) {
    && (item.Some? <==> exists j: nat :: RaisedAt(run, j))
    && (item.Some? ==> forall j: nat | FirstRaisedAt(run, j) :: item.value.firstSeen == TimeOf(run[j]))
    && (item.Some? ==> (item.value.open <==> exists j: nat :: RaisedSince(run, j)))
  }

  lemma RaisedNext(init: seq<Check>, c: Check, j: nat)
    ensures RaisedAt(init + [c], j) <==> RaisedAt(init, j) || (j == |init| && Due(init + [c]))
  {
    var run := init + [c];
    if j < |init| {
      assert run[..j + 1] == init[..j + 1];
    } else if j == |init| {
      assert run[..j + 1] == run;
    }
  }

  lemma DueIsChecked(init: seq<Check>, c: Check)
    ensures Due(init + [c]) ==> c.SinksChecked?
  {
    assert (init + [c])[|init|] == c;
  }

  lemma ItemAfterCheck(init: seq<Check>, c: Check)
    requires ItemTells(init, After(init).item)
    ensures ItemTells(init + [c], After(init + [c]).item)
  {
    if Due(init + [c]) {
      ItemWhenDue(init, c);
    } else {
      ItemWhenNotDue(init, c);
    }
  }

  lemma ItemWhenDue(init: seq<Check>, c: Check)
    requires ItemTells(init, After(init).item) && Due(init + [c])
    ensures ItemTells(init + [c], After(init + [c]).item)
  {
    var run, now := init + [c], After(init + [c]).item;
    assert run[|init|] == c && forall j | 0 <= j < |init| :: run[j] == init[j];
    DueIsChecked(init, c);
    var k, first := UnhealthyEventExactly(init, c);
    RaisedNext(init, c, |init|);
    assert RaisedSince(run, |init|);
    forall j: nat | FirstRaisedAt(run, j) ensures now.value.firstSeen == TimeOf(run[j]) {
      FirstRaisedBefore(init, c, j);
    }
  }

  lemma FirstRaisedBefore(init: seq<Check>, c: Check, j: nat)
    requires FirstRaisedAt(init + [c], j) && ItemTells(init, After(init).item)
    ensures After(init).item.Some? ==> j < |init| && FirstRaisedAt(init, j) && (init + [c])[j] == init[j]
    ensures After(init).item.None? ==> j == |init|
  {
    forall i: nat ensures RaisedAt(init + [c], i) <==> RaisedAt(init, i) || (i == |init| && Due(init + [c])) {
      RaisedNext(init, c, i);
    }
    if After(init).item.Some? {
      var i: nat :| RaisedAt(init, i);
      assert i < |init| && RaisedAt(init + [c], i);
    }
  }

  lemma NotRaisedNow(init: seq<Check>, c: Check)
    requires !Due(init + [c])
    ensures forall j: nat :: RaisedAt(init + [c], j) <==> RaisedAt(init, j)
    ensures forall j: nat :: FirstRaisedAt(init + [c], j) <==> FirstRaisedAt(init, j)
    ensures forall j: nat :: RaisedSince(init + [c], j) <==> RaisedSince(init, j) && c.SinksChecked?
  {
    var run := init + [c];
    assert run[|init|] == c && forall j | 0 <= j < |init| :: run[j] == init[j];
    forall j: nat ensures RaisedAt(run, j) <==> RaisedAt(init, j) {
      RaisedNext(init, c, j);
    }
  }

  lemma RecoveredItem(w: World, c: Check)
    requires c.SinksHealthy?
    ensures Step(w, c).item == if w.item.Some? then Some(Item(w.item.value.firstSeen, false)) else None
  {
  }

  lemma ItemWhenNotDue(init: seq<Check>, c: Check)
    requires ItemTells(init, After(init).item) && !Due(init + [c])
    ensures ItemTells(init + [c], After(init + [c]).item)
  {
    NotRaisedNow(init, c);
    assert forall j | 0 <= j < |init| :: (init + [c])[j] == init[j];
    if c.SinksChecked? {
      var k, first := UnhealthyEventExactly(init, c);
    } else {
      AfterNext(init, c);
      RecoveredItem(After(init), c);
    }
  }

  lemma {:induction false} ItemAlongRun(run: seq<Check>)
    ensures ItemTells(run, After(run).item)
  {
    if run != [] {
      var init, c := run[..|run| - 1], run[|run| - 1];
      assert run == init + [c];
      ItemAlongRun(init);
      ItemAfterCheck(init, c);
    }
  }

  /**
   A recovery check appends a recovery event if and only if recovery notices are enabled, some
   earlier check was due, and an episode is open. The event names the time of that episode's
   first check. Either way the item is closed and no episode is open any more.
   */
  lemma RecoveryEventExactly(init: seq<Check>, c: Check, k: nat, u: seq<Sink>)
    requires c.SinksHealthy?
    ensures !(c.recoveryEnabled && (exists j: nat :: RaisedAt(init, j)) && EpisodeOpen(init)) ==>
      After(init + [c]).events == After(init).events
    ensures c.recoveryEnabled && (exists j: nat :: RaisedAt(init, j)) && BeganAt(init, k, u) ==>
      After(init + [c]).events == After(init).events + [WorkerRecovered(RecoveredKey(TimeOf(init[k])), c.at)]
    ensures After(init + [c]).item.Some? ==> !After(init + [c]).item.value.open
    ensures !EpisodeOpen(init + [c])
  {
    AfterNext(init, c);
    HealthAlongRun(init);
    ItemAlongRun(init);
    RecoveryCloses(init, c);
    if BeganAt(init, k, u) {
      EpisodeIsStored(init, k, u);
    }
  }

  lemma EpisodeIsStored(run: seq<Check>, k: nat, u: seq<Sink>)
    requires BeganAt(run, k, u)
    ensures UnhealthyWith(After(run).health, Fingerprint(u), TimeOf(run[k]))
  {
    HealthAlongRun(run);
    assert EpisodeOpen(run);
    var h := After(run).health;
    var m: nat :| BeganAt(run, m, h.fingerprint.unhealthy) && TimeOf(run[m]) == h.firstObservedAt.value;
    OneEpisode(run, k, u, m, h.fingerprint.unhealthy);
  }
}
