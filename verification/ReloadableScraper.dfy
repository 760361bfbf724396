/**
 The reloadable stream scraper facade (reloadable_stream_scraper.rs).

 Several tasks apply settings or rebuild at once. A task is cut at every lock
 scope and await, since another thread may run in between; only the rebuild
 section is serialised, by the `rebuild` mutex, and settings are written outside
 it. Builds and route publications succeed or fail at will.
 */
module ReloadableScraper {
  import opened Wrappers

  datatype CacheConfig = CacheConfig(maxDiskBytes: nat, maxMemoryBytes: nat, blockSizeBytes: nat)

  datatype Endpoints = Endpoints(drmLicensePublicPath: string, httpProxyPublicPath: Option<string>)

  /** A built scraper; `generation` tells instances apart. */
  datatype Instance = Instance(generation: nat, sizing: CacheConfig, endpoints: Endpoints, country: Option<string>)

  datatype Settings = Settings(cache: Option<CacheConfig>, country: Option<string>)

  datatype Task =
    | Comparing(settings: Settings)
    | Writing(settings: Settings)
    | StoringCountry(settings: Settings, changed: bool)
    | TakingInstance(country: string, changed: bool)
    | SettingCountry(generation: nat, country: string, changed: bool)
    | Locking
    | Building(countryOption: Option<string>)
    | Restoring(built: Instance)
    | Swapping(built: Instance)
    | Returned(outcome: Outcome)

  /** How a call ended: without a rebuild, with a swap, or with a rebuild that failed at one of two places. */
  datatype Outcome = Unchanged | Applied | BuildFailed | PublicationFailed

  /** A failed build is only noted in a report that `apply_scraper_settings` drops. */
  predicate ReportsSuccess(task: Task) {
    task.Returned? && task.outcome != PublicationFailed
  }

  /**
   `holder` owns the rebuild mutex. `sound` records that no build or publication
   failed since a rebuild last read the runtime options.
   */
  datatype State = State(
    holder: Option<nat>,
    country: Option<string>,
    runtimeOptions: Option<CacheConfig>,
    registration: Option<Endpoints>,
    inner: Instance,
    tasks: map<nat, Task>,
    nextGeneration: nat,
    sound: bool)

  /** The sizing an aggregator gets when the options leave it untouched. */
  const DEFAULT_SIZING := CacheConfig(104857600, 33554432, 16777216)

  function ApplyTo(options: Option<CacheConfig>, sizing: CacheConfig): CacheConfig {
    match options
    case Some(config) => config
    case None => sizing
  }

  /** The facade right after `register_service` shared it. */
  function Registered(options: Option<CacheConfig>, endpoints: Endpoints, country: Option<string>): State {
    State(None, country, options, Some(endpoints),
          Instance(0, ApplyTo(options, DEFAULT_SIZING), endpoints, country), map[], 1, true)
  }

  // --- Segments ------------------------------------------------------------

  datatype Step =
    | CallApply(task: nat, settings: Settings)
    | CallRebuild(task: nat)
    | Compare(task: nat)
    | Write(task: nat)
    | StoreCountry(task: nat)
    | TakeInstance(task: nat)
    | SetCountry(task: nat)
    | Lock(task: nat)
    | Build(task: nat, endpoints: Option<Endpoints>)
    | Restore(task: nat, published: bool)
    | Swap(task: nat)

  predicate Enabled(s: State, step: Step) {
    match step
    case CallApply(t, _) => t !in s.tasks
    case CallRebuild(t) => t !in s.tasks
    case Compare(t) => t in s.tasks && s.tasks[t].Comparing?
    case Write(t) => t in s.tasks && s.tasks[t].Writing?
    case StoreCountry(t) => t in s.tasks && s.tasks[t].StoringCountry?
    case TakeInstance(t) => t in s.tasks && s.tasks[t].TakingInstance?
    case SetCountry(t) => t in s.tasks && s.tasks[t].SettingCountry?
    case Lock(t) => t in s.tasks && s.tasks[t].Locking? && s.holder.None?
    case Build(t, _) => t in s.tasks && s.tasks[t].Building?
    case Restore(t, _) => t in s.tasks && s.tasks[t].Restoring?
    case Swap(t) => t in s.tasks && s.tasks[t].Swapping?
  }

  /** What follows the settings part of `apply_scraper_settings`. */
  function AfterSettings(changed: bool): Task {
    if changed then Locking else Returned(Unchanged)
  }

  /** The rebuild ends without touching the active instance. */
  function FailRebuild(s: State, t: nat, outcome: Outcome): State {
    s.(holder := None, tasks := s.tasks[t := Returned(outcome)], sound := false)
  }

  function Apply(s: State, step: Step): State
    requires Enabled(s, step)
  {
    match step
    case CallApply(t, settings) => s.(tasks := s.tasks[t := Comparing(settings)])
    case CallRebuild(t) => s.(tasks := s.tasks[t := Locking])
    case Compare(t) =>
      var settings := s.tasks[t].settings;
      s.(tasks := s.tasks[t := if s.runtimeOptions != settings.cache then Writing(settings)
                               else StoringCountry(settings, false)])
    case Write(t) =>
      var settings := s.tasks[t].settings;
      s.(runtimeOptions := settings.cache, tasks := s.tasks[t := StoringCountry(settings, true)])
    case StoreCountry(t) =>
      var task := s.tasks[t];
      if task.settings.country.Some? then
        s.(country := task.settings.country,
           tasks := s.tasks[t := TakingInstance(task.settings.country.value, task.changed)])
      else
        s.(tasks := s.tasks[t := AfterSettings(task.changed)])
    case TakeInstance(t) =>
      var task := s.tasks[t];
      s.(tasks := s.tasks[t := SettingCountry(s.inner.generation, task.country, task.changed)])
    case SetCountry(t) =>
      var task := s.tasks[t];
      var inner := if task.generation == s.inner.generation then s.inner.(country := Some(task.country)) else s.inner;
      s.(inner := inner, tasks := s.tasks[t := AfterSettings(task.changed)])
    case Lock(t) =>
      s.(holder := Some(t), tasks := s.tasks[t := Building(s.country)])
    case Build(t, None) => FailRebuild(s, t, BuildFailed)
    case Build(t, Some(own)) =>
      var built := Instance(s.nextGeneration, DEFAULT_SIZING, s.registration.GetOr(own), s.tasks[t].countryOption);
      s.(nextGeneration := s.nextGeneration + 1, tasks := s.tasks[t := Restoring(built)])
    case Restore(t, published) =>
      var built := s.tasks[t].built;
      if published then
        s.(tasks := s.tasks[t := Swapping(built.(sizing := ApplyTo(s.runtimeOptions, built.sizing)))], sound := true)
      else FailRebuild(s, t, PublicationFailed)
    case Swap(t) =>
      s.(holder := None, inner := s.tasks[t].built, tasks := s.tasks[t := Returned(Applied)])
  }

  ghost predicate Path(s: State, steps: seq<Step>, t: State)
    decreases |steps|
  {
    if steps == [] then s == t
    else Enabled(s, steps[0]) && Path(Apply(s, steps[0]), steps[1..], t)
  }

  // --- Invariants ----------------------------------------------------------

  /** The sizing the stored options ask for. */
  function Stored(s: State): CacheConfig {
    ApplyTo(s.runtimeOptions, DEFAULT_SIZING)
  }

  /** This caller changed the options, or asked for a rebuild, and has yet to read them. */
  predicate WillRead(task: Task) {
    match task
    case StoringCountry(_, changed) => changed
    case TakingInstance(_, changed) => changed
    case SettingCountry(_, _, changed) => changed
    case Locking => true
    case Building(_) => true
    case Restoring(_) => true
    case _ => false
  }

  predicate InsideMutex(task: Task) {
    task.Building? || task.Restoring? || task.Swapping?
  }

  ghost predicate SomeoneWillRead(s: State) {
    exists t | t in s.tasks :: WillRead(s.tasks[t])
  }

  /** Exactly the holder of the mutex is inside the rebuild section. */
  ghost predicate MutexInv(s: State) {
    && (forall t | t in s.tasks :: InsideMutex(s.tasks[t]) <==> s.holder == Some(t))
    && (s.holder.Some? ==> s.holder.value in s.tasks)
  }

  /** Every instance that is active or about to be carries the registered endpoints. */
  ghost predicate EndpointsInv(s: State) {
    s.registration.Some? ==>
      && s.inner.endpoints == s.registration.value
      && forall t | t in s.tasks && (s.tasks[t].Restoring? || s.tasks[t].Swapping?) ::
           s.tasks[t].built.endpoints == s.registration.value
  }

  /** The sizing that will be active once the current swap, if any, has happened. */
  ghost function Upcoming(s: State): CacheConfig {
    if s.holder.Some? && s.holder.value in s.tasks && s.tasks[s.holder.value].Swapping? then
      s.tasks[s.holder.value].built.sizing
    else s.inner.sizing
  }

  /** A sizing that is out of date will be followed by another read of the options. */
  ghost predicate SizingInv(s: State) {
    && (forall t | t in s.tasks && s.tasks[t].Restoring? :: s.tasks[t].built.sizing == DEFAULT_SIZING)
    && (s.sound ==> Upcoming(s) == Stored(s) || SomeoneWillRead(s))
  }

  ghost predicate Inv(s: State) {
    MutexInv(s) && EndpointsInv(s) && SizingInv(s)
  }

  lemma RegisteredInv(options: Option<CacheConfig>, endpoints: Endpoints, country: Option<string>)
    ensures Inv(Registered(options, endpoints, country))
  {
  }

  lemma StepKeepsMutex(s: State, step: Step)
    requires MutexInv(s) && Enabled(s, step)
    ensures MutexInv(Apply(s, step))
  {
    match step
    case Build(t, own) => match own { case None => case Some(e) => }
    case Restore(t, published) =>
    case _ =>
  }

  lemma StepKeepsEndpoints(s: State, step: Step)
    requires EndpointsInv(s) && Enabled(s, step)
    ensures EndpointsInv(Apply(s, step)) && Apply(s, step).registration == s.registration
    ensures !step.Swap? ==> Apply(s, step).inner == s.inner.(country := Apply(s, step).inner.country)
  {
    match step
    case Build(t, own) => match own { case None => case Some(e) => }
    case Restore(t, published) =>
    case _ =>
  }

  /** Every step but a read keeps a promise to read alive. */
  lemma PromiseKept(s: State, step: Step)
    requires Enabled(s, step) && SomeoneWillRead(s)
    requires !step.Restore? && !(step.Build? && step.endpoints.None?)
    ensures SomeoneWillRead(Apply(s, step))
  {
    var r, moved := Apply(s, step), step.task;
    var t :| t in s.tasks && WillRead(s.tasks[t]);
    if t == moved {
      assert WillRead(r.tasks[moved]);
    } else {
      assert r.tasks[t] == s.tasks[t];
    }
  }

  lemma StepKeepsSizing(s: State, step: Step)
    requires MutexInv(s) && SizingInv(s) && Enabled(s, step)
    ensures SizingInv(Apply(s, step))
  {
    var r, moved := Apply(s, step), step.task;
    if !step.Restore? && !(step.Build? && step.endpoints.None?) && SomeoneWillRead(s) {
      PromiseKept(s, step);
    }
    match step
    case Write(t) => assert WillRead(r.tasks[t]);
    case CallRebuild(t) => assert WillRead(r.tasks[t]);
    case Lock(t) => assert WillRead(r.tasks[t]);
    case Build(t, own) => match own { case None => case Some(e) => assert WillRead(r.tasks[t]); }
    case Restore(t, published) =>
    case Swap(t) =>
    case _ =>
  }

  lemma StepKeepsInv(s: State, step: Step)
    requires Inv(s) && Enabled(s, step)
    ensures Inv(Apply(s, step))
  {
    StepKeepsMutex(s, step);
    StepKeepsEndpoints(s, step);
    StepKeepsSizing(s, step);
  }

  lemma {:induction false} PathKeepsInv(s: State, steps: seq<Step>, t: State)
    requires Inv(s) && Path(s, steps, t)
    ensures Inv(t) && t.registration == s.registration
    decreases |steps|
  {
    if steps != [] {
      StepKeepsInv(s, steps[0]);
      StepKeepsEndpoints(s, steps[0]);
      PathKeepsInv(Apply(s, steps[0]), steps[1..], t);
    }
  }

  // --- Main results --------------------------------------------------------

  ghost predicate AllReturned(s: State) {
    forall t | t in s.tasks :: s.tasks[t].Returned?
  }

  /** The replacement could not be built, or its default route not published. */
  predicate Fails(step: Step) {
    (step.Build? && step.endpoints.None?) || (step.Restore? && !step.published)
  }

  ghost predicate FailureFree(steps: seq<Step>) {
    forall k | 0 <= k < |steps| :: !Fails(steps[k])
  }

  lemma {:induction false} SoundWithoutFailures(s: State, steps: seq<Step>, t: State)
    requires Path(s, steps, t) && FailureFree(steps)
    requires s.sound || exists k :: 0 <= k < |steps| && steps[k].Restore?
    ensures t.sound
    decreases |steps|
  {
    if steps != [] {
      var r := Apply(s, steps[0]);
      assert FailureFree(steps[1..]) by {
        assert forall k | 0 <= k < |steps[1..]| :: steps[1..][k] == steps[k + 1];
      }
      assert !Fails(steps[0]);
      if !s.sound && !steps[0].Restore? {
        var k :| 0 <= k < |steps| && steps[k].Restore?;
        assert steps[1..][k - 1].Restore?;
      }
      SoundWithoutFailures(r, steps[1..], t);
    }
  }

  /**
   Whatever writers and rebuilds interleave, once every call has returned and
   nothing failed, the active instance has the sizing the stored options ask
   for. Earlier failures are made up for by any later rebuild: it is enough that
   `s` had none, or that some rebuild read the options during `steps`.
   */
  lemma ActiveSizingIsStored(options: Option<CacheConfig>, endpoints: Endpoints, country: Option<string>,
                             before: seq<Step>, s: State, steps: seq<Step>, t: State)
    requires Path(Registered(options, endpoints, country), before, s) && Path(s, steps, t)
    requires FailureFree(steps) && AllReturned(t)
    requires FailureFree(before) || exists k :: 0 <= k < |steps| && steps[k].Restore?
    ensures t.inner.sizing == Stored(t)
  {
    RegisteredInv(options, endpoints, country);
    PathKeepsInv(Registered(options, endpoints, country), before, s);
    PathKeepsInv(s, steps, t);
    if FailureFree(before) {
      SoundWithoutFailures(Registered(options, endpoints, country), before, s);
    }
    SoundWithoutFailures(s, steps, t);
  }

  /** Every instance that ever becomes active carries the registration-time endpoints. */
  lemma ActiveEndpointsAreRegistered(options: Option<CacheConfig>, endpoints: Endpoints, country: Option<string>,
                                     steps: seq<Step>, t: State)
    requires Path(Registered(options, endpoints, country), steps, t)
    ensures t.inner.endpoints == endpoints
  {
    RegisteredInv(options, endpoints, country);
    PathKeepsInv(Registered(options, endpoints, country), steps, t);
  }

  /** While no swap happens, failed builds included, only the country of the active instance can change. */
  lemma {:induction false} OnlySwapsReplaceTheInstance(s: State, steps: seq<Step>, t: State)
    requires EndpointsInv(s) && Path(s, steps, t)
    requires forall k | 0 <= k < |steps| :: !steps[k].Swap?
    ensures t.inner == s.inner.(country := t.inner.country)
    decreases |steps|
  {
    if steps != [] {
      StepKeepsEndpoints(s, steps[0]);
      assert forall k | 0 <= k < |steps[1..]| :: steps[1..][k] == steps[k + 1];
      OnlySwapsReplaceTheInstance(Apply(s, steps[0]), steps[1..], t);
    }
  }

  // --- A failed rebuild is not retried -------------------------------------

  function FailedApply(t: nat, settings: Settings): seq<Step> {
    [CallApply(t, settings), Compare(t), Write(t), StoreCountry(t), Lock(t), Build(t, None)]
  }

  function RepeatedApply(t: nat, settings: Settings): seq<Step> {
    [CallApply(t, settings), Compare(t), StoreCountry(t)]
  }

  /** Applying the stored sizing again returns without a rebuild. */
  lemma RepeatReturnsAtOnce(s: State, task: nat, settings: Settings)
    requires task !in s.tasks && settings == Settings(s.runtimeOptions, None)
    ensures Path(s, RepeatedApply(task, settings), s.(tasks := s.tasks[task := Returned(Unchanged)]))
  {
    var s1 := Apply(s, CallApply(task, settings));
    var s2 := Apply(s1, Compare(task));
    var s3 := Apply(s2, StoreCountry(task));
    assert s3 == s.(tasks := s.tasks[task := Returned(Unchanged)]);
    var steps := RepeatedApply(task, settings);
    assert steps[1..][1..] == [StoreCountry(task)] && steps[1..][1..][1..] == [];
    assert Path(s3, [], s3) && Path(s2, steps[1..][1..], s3) && Path(s1, steps[1..], s3);
  }

  /** The settings were written, the rebuild is still to come. */
  function WrittenBy(s: State, task: nat, settings: Settings): State {
    s.(runtimeOptions := settings.cache, tasks := s.tasks[task := StoringCountry(settings, true)])
  }

  lemma WritePath(s: State, task: nat, settings: Settings, rest: seq<Step>, t: State)
    requires task !in s.tasks && settings.cache != s.runtimeOptions && Path(WrittenBy(s, task, settings), rest, t)
    ensures Path(s, [CallApply(task, settings), Compare(task), Write(task)] + rest, t)
  {
    var s1 := Apply(s, CallApply(task, settings));
    var s2 := Apply(s1, Compare(task));
    assert Apply(s2, Write(task)) == WrittenBy(s, task, settings) by {
      assert s.tasks[task := Comparing(settings)][task := Writing(settings)][task := StoringCountry(settings, true)]
          == s.tasks[task := StoringCountry(settings, true)];
    }
    hide Apply;
    FirstStep(s2, Write(task), rest, t);
    FirstStep(s1, Compare(task), [Write(task)] + rest, t);
    FirstStep(s, CallApply(task, settings), [Compare(task)] + ([Write(task)] + rest), t);
    assert [CallApply(task, settings)] + ([Compare(task)] + ([Write(task)] + rest))
        == [CallApply(task, settings), Compare(task), Write(task)] + rest;
  }

  lemma FailPath(s: State, task: nat, settings: Settings)
    requires s.holder.None? && settings.country.None?
    requires task in s.tasks && s.tasks[task] == StoringCountry(settings, true)
    ensures Path(s, [StoreCountry(task), Lock(task), Build(task, None)],
                 s.(tasks := s.tasks[task := Returned(BuildFailed)], sound := false))
  {
    var s1 := Apply(s, StoreCountry(task));
    var s2 := Apply(s1, Lock(task));
    var s3 := Apply(s2, Build(task, None));
    assert s3 == s.(tasks := s.tasks[task := Returned(BuildFailed)], sound := false);
    hide Apply;
    FirstStep(s2, Build(task, None), [], s3);
    FirstStep(s1, Lock(task), [Build(task, None)], s3);
    FirstStep(s, StoreCountry(task), [Lock(task), Build(task, None)], s3);
  }

  lemma FailureLeavesStale(s: State, task: nat, settings: Settings)
    requires task !in s.tasks && s.holder.None? && settings.cache != s.runtimeOptions && settings.country.None?
    ensures Path(s, FailedApply(task, settings),
                 s.(runtimeOptions := settings.cache, tasks := s.tasks[task := Returned(BuildFailed)], sound := false))
  {
    hide Path;
    var written := WrittenBy(s, task, settings);
    var t := written.(tasks := written.tasks[task := Returned(BuildFailed)], sound := false);
    assert t == s.(runtimeOptions := settings.cache, tasks := s.tasks[task := Returned(BuildFailed)], sound := false);
    FailPath(written, task, settings);
    WritePath(s, task, settings, [StoreCountry(task), Lock(task), Build(task, None)], t);
    assert [CallApply(task, settings), Compare(task), Write(task)] + [StoreCountry(task), Lock(task), Build(task, None)]
        == FailedApply(task, settings);
  }

  lemma FirstStep(s: State, step: Step, rest: seq<Step>, t: State)
    requires Enabled(s, step) && Path(Apply(s, step), rest, t)
    ensures Path(s, [step] + rest, t)
  {
    hide Apply, Enabled;
    assert ([step] + rest)[1..] == rest;
  }

  /**
   After a failed build the stored sizing is ahead of the active one, and
   applying the same settings again repairs nothing. Both calls report success.
   When an apply does install its sizing is the matter of ApplyInstallsIff.
   */
  lemma FailedBuildIsNotRetried(endpoints: Endpoints, wanted: CacheConfig) returns (failed: State, repeated: State)
    requires wanted != DEFAULT_SIZING
    ensures Path(Registered(None, endpoints, None), FailedApply(0, Settings(Some(wanted), None)), failed)
    ensures Path(failed, RepeatedApply(1, Settings(Some(wanted), None)), repeated)
    ensures AllReturned(repeated) && 0 in repeated.tasks && 1 in repeated.tasks
    ensures ReportsSuccess(repeated.tasks[0]) && ReportsSuccess(repeated.tasks[1])
    ensures Stored(repeated) == wanted && repeated.inner.sizing == DEFAULT_SIZING
  {
    var start := Registered(None, endpoints, None);
    FailureLeavesStale(start, 0, Settings(Some(wanted), None));
    failed := start.(runtimeOptions := Some(wanted), tasks := map[0 := Returned(BuildFailed)], sound := false);
    assert start.tasks[0 := Returned(BuildFailed)] == failed.tasks;
    RepeatReturnsAtOnce(failed, 1, Settings(Some(wanted), None));
    repeated := failed.(tasks := failed.tasks[1 := Returned(Unchanged)]);
  }

  // --- When an apply installs its sizing -----------------------------------

  predicate IsCall(step: Step) {
    step.CallApply? || step.CallRebuild?
  }

  ghost predicate NoCalls(steps: seq<Step>) {
    forall k | 0 <= k < |steps| :: !IsCall(steps[k])
  }

  function Wanted(settings: Settings): CacheConfig {
    ApplyTo(settings.cache, DEFAULT_SIZING)
  }

  /** What task `x` of one apply knows on its own, since state `s`; `failed` tells whether its rebuild failed. */
  ghost predicate Phase(s: State, u: State, settings: Settings, x: Task, failed: bool) {
    var changed := settings.cache != s.runtimeOptions;
    match x
    case Comparing(own) => own == settings && !failed && u.runtimeOptions == s.runtimeOptions && u.inner.sizing == s.inner.sizing
    case Writing(own) => own == settings && !failed && changed && u.inner.sizing == s.inner.sizing
    case StoringCountry(own, c) => own == settings && !failed && c == changed && Untouched(s, u, settings)
    case TakingInstance(_, c) => !failed && c == changed && Untouched(s, u, settings)
    case SettingCountry(_, _, c) => !failed && c == changed && Untouched(s, u, settings)
    case Locking => !failed && changed && Untouched(s, u, settings)
    case Building(_) => !failed && changed && Untouched(s, u, settings)
    case Restoring(built) => !failed && changed && built.sizing == DEFAULT_SIZING && Untouched(s, u, settings)
    case Swapping(built) => !failed && changed && built.sizing == Wanted(settings) && Untouched(s, u, settings)
    case Returned(outcome) =>
      && u.runtimeOptions == settings.cache
      && u.inner.sizing == (if changed && !failed then Wanted(settings) else s.inner.sizing)
      && (failed ==> changed)
  }

  /** The settings are stored and the active sizing is the old one. */
  ghost predicate Untouched(s: State, u: State, settings: Settings) {
    u.runtimeOptions == settings.cache && u.inner.sizing == s.inner.sizing
  }

  /** Task `task` applies settings alone: every other call has returned. */
  ghost predicate Alone(s: State, u: State, task: nat, settings: Settings, failed: bool) {
    && (forall k | k in u.tasks && k != task :: u.tasks[k].Returned?)
    && task in u.tasks && Phase(s, u, settings, u.tasks[task], failed)
  }

  lemma AloneStep(s: State, u: State, task: nat, settings: Settings, failed: bool, step: Step)
    requires Alone(s, u, task, settings, failed) && Enabled(u, step) && !IsCall(step)
    ensures Alone(s, Apply(u, step), task, settings, failed || Fails(step))
  {
    match step
    case Build(t, own) => match own { case None => case Some(e) => }
    case Restore(t, published) =>
    case _ =>
  }

  lemma {:induction false} AlonePath(s: State, u: State, task: nat, settings: Settings, failed: bool, steps: seq<Step>, t: State)
    requires Alone(s, u, task, settings, failed) && Path(u, steps, t) && NoCalls(steps)
    ensures Alone(s, t, task, settings, failed || !FailureFree(steps))
    decreases |steps|
  {
    if steps != [] {
      hide Alone, Apply, Enabled, Fails, IsCall;
      AloneStep(s, u, task, settings, failed, steps[0]);
      assert forall k | 0 <= k < |steps[1..]| :: steps[1..][k] == steps[k + 1];
      assert FailureFree(steps) <==> !Fails(steps[0]) && FailureFree(steps[1..]);
      AlonePath(s, Apply(u, steps[0]), task, settings, failed || Fails(steps[0]), steps[1..], t);
    }
  }

  /**
   One apply, with or without a country, while no other call is under way: when it
   has returned, the active instance has the stored sizing exactly when the stored
   options changed and the rebuild succeeded, or the sizing was active before.
   */
  lemma ApplyInstallsIff(s: State, task: nat, settings: Settings, steps: seq<Step>, t: State)
    requires AllReturned(s) && task !in s.tasks && NoCalls(steps)
    requires Path(s, [CallApply(task, settings)] + steps, t) && AllReturned(t)
    ensures t.inner.sizing == Stored(t) <==>
              (settings.cache != s.runtimeOptions && FailureFree(steps)) || s.inner.sizing == ApplyTo(settings.cache, DEFAULT_SIZING)
  {
    var u := Apply(s, CallApply(task, settings));
    assert ([CallApply(task, settings)] + steps)[1..] == steps;
    assert Alone(s, u, task, settings, false);
    AlonePath(s, u, task, settings, false, steps, t);
  }

  /** If nothing fails, what decides is the guard of the program: the options change, or the active sizing was theirs. */
  lemma FailureFreeApplyInstallsIff(s: State, task: nat, settings: Settings, steps: seq<Step>, t: State)
    requires AllReturned(s) && task !in s.tasks && NoCalls(steps) && FailureFree(steps)
    requires Path(s, [CallApply(task, settings)] + steps, t) && AllReturned(t)
    ensures t.inner.sizing == Stored(t) <==> settings.cache != s.runtimeOptions || s.inner.sizing == Stored(s)
  {
    hide Path, FailureFree, NoCalls, AllReturned;
    ApplyInstallsIff(s, task, settings, steps, t);
  }

  // --- The facade ----------------------------------------------------------

  class ReloadableStreamScraper {
    var holder: Option<nat>
    var country: Option<string>
    var runtimeOptions: Option<CacheConfig>
    var registration: Option<Endpoints>
    var inner: Instance
    /** Suspended calls with their captured locals. */
    var tasks: map<nat, Task>
    var nextGeneration: nat
    ghost var sound: bool

    ghost function View(): State
      reads this
    {
      State(holder, country, runtimeOptions, registration, inner, tasks, nextGeneration, sound)
    }

    constructor (options: Option<CacheConfig>, endpoints: Endpoints, localCountry: Option<string>)
      ensures View() == Registered(options, endpoints, localCountry)
    {
      holder, country, runtimeOptions, registration := None, localCountry, options, Some(endpoints);
      inner := Instance(0, ApplyTo(options, DEFAULT_SIZING), endpoints, localCountry);
      tasks, nextGeneration, sound := map[], 1, true;
    }

    method ApplyScraperSettings(task: nat, settings: Settings)
      requires Enabled(View(), CallApply(task, settings))
      modifies `tasks
      ensures View() == Apply(old(View()), CallApply(task, settings))
    {
      tasks := tasks[task := Comparing(settings)];
    }

    method RebuildValidated(task: nat)
      requires Enabled(View(), CallRebuild(task))
      modifies `tasks
      ensures View() == Apply(old(View()), CallRebuild(task))
    {
      tasks := tasks[task := Locking];
    }

    method CompareCache(task: nat)
      requires Enabled(View(), Compare(task))
      modifies `tasks
      ensures View() == Apply(old(View()), Compare(task))
    {
      var settings := tasks[task].settings;
      var cacheChanged;
      match (runtimeOptions, settings.cache) {
        case (Some(left), Some(right)) =>
          cacheChanged := left.maxDiskBytes != right.maxDiskBytes || left.maxMemoryBytes != right.maxMemoryBytes
                          || left.blockSizeBytes != right.blockSizeBytes;
        case (None, None) => cacheChanged := false;
        case _ => cacheChanged := true;
      }
      tasks := tasks[task := if cacheChanged then Writing(settings) else StoringCountry(settings, false)];
    }

    method WriteCache(task: nat)
      requires Enabled(View(), Write(task))
      modifies `runtimeOptions, `tasks
      ensures View() == Apply(old(View()), Write(task))
    {
      var settings := tasks[task].settings;
      runtimeOptions := settings.cache;
      tasks := tasks[task := StoringCountry(settings, true)];
    }

    method StoreCurrentCountry(task: nat)
      requires Enabled(View(), StoreCountry(task))
      modifies `country, `tasks
      ensures View() == Apply(old(View()), StoreCountry(task))
    {
      var current := tasks[task];
      if current.settings.country.Some? {
        country := current.settings.country;
        tasks := tasks[task := TakingInstance(country.value, current.changed)];
      } else {
        tasks := tasks[task := AfterSettings(current.changed)];
      }
    }

    /** `current()`, after the lock on the options was released. */
    method TakeCurrentInstance(task: nat)
      requires Enabled(View(), TakeInstance(task))
      modifies `tasks
      ensures View() == Apply(old(View()), TakeInstance(task))
    {
      var current := tasks[task];
      tasks := tasks[task := SettingCountry(inner.generation, current.country, current.changed)];
    }

    method SetInstanceCountry(task: nat)
      requires Enabled(View(), SetCountry(task))
      modifies `inner, `tasks
      ensures View() == Apply(old(View()), SetCountry(task))
    {
      var current := tasks[task];
      if current.generation == inner.generation {
        inner := inner.(country := Some(current.country));
      }
      tasks := tasks[task := AfterSettings(current.changed)];
    }

    method LockRebuild(task: nat)
      requires Enabled(View(), Lock(task))
      modifies `holder, `tasks
      ensures View() == Apply(old(View()), Lock(task))
    {
      holder := Some(task);
      tasks := tasks[task := Building(country)];
    }

    method FinishBuild(task: nat, own: Option<Endpoints>)
      requires Enabled(View(), Build(task, own))
      modifies `holder, `tasks, `nextGeneration, `sound
      ensures View() == Apply(old(View()), Build(task, own))
    {
      if own.None? {
        tasks := tasks[task := Returned(BuildFailed)];
        holder, sound := None, false;
      } else {
        var scraper := Instance(nextGeneration, DEFAULT_SIZING, own.value, None);
        if registration.Some? {
          scraper := scraper.(endpoints := registration.value);
        }
        if tasks[task].countryOption.Some? {
          scraper := scraper.(country := tasks[task].countryOption);
        }
        nextGeneration := nextGeneration + 1;
        tasks := tasks[task := Restoring(scraper)];
      }
    }

    method RestoreOptions(task: nat, published: bool)
      requires Enabled(View(), Restore(task, published))
      modifies `holder, `tasks, `sound
      ensures View() == Apply(old(View()), Restore(task, published))
    {
      var scraper := tasks[task].built;
      if runtimeOptions.Some? {
        scraper := scraper.(sizing := runtimeOptions.value);
      }
      if published {
        tasks := tasks[task := Swapping(scraper)];
        sound := true;
      } else {
        tasks := tasks[task := Returned(PublicationFailed)];
        holder, sound := None, false;
      }
    }

    method SwapInstance(task: nat)
      requires Enabled(View(), Swap(task))
      modifies `holder, `inner, `tasks
      ensures View() == Apply(old(View()), Swap(task))
    {
      inner := tasks[task].built;
      holder := None;
      tasks := tasks[task := Returned(Applied)];
    }
  }
}
