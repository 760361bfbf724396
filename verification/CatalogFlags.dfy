/**
 The flags of a custom home catalog (useCustomHomeCatalog.ts): what `isLoading`,
 `hasLoaded` and `errorMessage` say on every schedule.
 */
module CatalogFlags {
  import opened Wrappers
  import opened CatalogMembers
  import opened CustomHomeCatalog
  import opened CatalogRuns

  /** `disposed` remembers whether the scope ended after the last load started. */
  datatype Flagged = Flagged(state: State, flags: Flags, disposed: bool)

  const UNLOADED := Flagged(INITIAL, NOT_LOADED, false)

  function Next(c: Flagged, step: Step): Flagged
    requires Enabled(c.state, step)
  {
    Flagged(Apply(c.state, step), FlagsAfter(c.state, c.flags, step),
            step.Dispose? || (c.disposed && !step.LoadCatalog?))
  }

  ghost predicate FlaggedRun(c: Flagged, steps: seq<Step>, d: Flagged)
    decreases |steps|
  {
    if steps == [] then c == d else Enabled(c.state, steps[0]) && FlaggedRun(Next(c, steps[0]), steps[1..], d)
  }

  predicate LoadUnderWay(s: State, k: nat) {
    IsCurrent(s, k) && IsLoad(s.tasks[k])
  }

  ghost predicate Loading(s: State) {
    exists k: nat :: LoadUnderWay(s, k)
  }

  ghost predicate FlagsTell(c: Flagged) {
    && !(c.flags.isLoading && c.flags.hasLoaded)
    && (c.flags.errorMessage.Some? ==> c.flags.hasLoaded)
    && (Loading(c.state) ==> c.state.revision > 0)
    && (!c.disposed ==> (c.flags.isLoading <==> Loading(c.state)))
    && (!c.disposed ==> (c.flags.hasLoaded <==> c.state.revision > 0 && !Loading(c.state)))
  }

  // --- Steps that start and end no load ------------------------------------

  ghost predicate SameLoads(s: State, t: State) {
    t.revision == s.revision && forall k: nat :: LoadUnderWay(s, k) <==> LoadUnderWay(t, k)
  }

  /** The task of a section call moves on or ends; no load is touched. */
  ghost predicate SectionMoves(s: State, t: State, k: nat) {
    && t.revision == s.revision
    && (t.tasks == s.tasks || t.tasks == s.tasks - {k}
        || (k in t.tasks && !IsLoad(t.tasks[k]) && t.tasks == s.tasks[k := t.tasks[k]]))
  }

  lemma SectionKeepsLoads(s: State, t: State, k: nat)
    requires SectionMoves(s, t, k) && (k in s.tasks ==> !IsLoad(s.tasks[k]))
    ensures SameLoads(s, t)
  {
  }

  lemma SettleMoves(s: State, k: nat, owner: Owner, ok: bool)
    ensures SectionMoves(s, Settle(s, k, owner, ok), k)
  {
  }

  lemma AfterPagesMoves(s: State, k: nat, owner: Owner, initial: bool)
    ensures SectionMoves(s, AfterPages(s, k, owner, initial), k)
  {
    hide Settle;
    SettleMoves(s, k, owner, true);
  }

  lemma NextSourceMoves(s: State, k: nat, task: Task)
    requires task.Fetching?
    ensures SectionMoves(s, NextSource(s, k, task), k)
  {
    hide Settle, AfterPages;
    SettleMoves(s, k, task.owner, false);
    AfterPagesMoves(s, k, task.owner, task.initial);
  }

  lemma StartSectionMoves(s: State, k: nat, i: nat, initial: bool)
    requires i < |s.shown.members| && k !in s.tasks
    ensures SectionMoves(s, StartSection(s, k, i, initial), k)
  {
    hide AfterPages, WantedSources;
    var m := s.shown.members[i];
    var owner := Owner(m.id, m.blockId, m.categoryPage);
    var locked := s.(shown := s.shown.(loading := s.shown.loading + {MemberLock(m.id)}));
    AfterPagesMoves(locked, k, owner, initial);
  }

  lemma SourceResponseMoves(s: State, k: nat, result: Result<SourcePage, string>, dedupe: Dedupe)
    requires k in s.tasks && s.tasks[k].Fetching? && s.tasks[k].queue != []
    ensures SectionMoves(s, SectionResponse(s, k, result, dedupe), k)
  {
    hide NextSource, Advanced, WriteBack, Publish;
    var task := s.tasks[k];
    match result
    case Err(_) => NextSourceMoves(s, k, task.(queue := task.queue[1..], failed := true));
    case Ok(page) =>
      var next := Advanced(task.next, task.queue[0], page, dedupe);
      var shown := s.shown.(members := WriteBack(s.shown.members, task.owner.id, next));
      NextSourceMoves(s.(shown := Publish(shown, s.definition)), k, task.(next := next, queue := task.queue[1..]));
  }

  lemma SectionStep(s: State, step: Step)
    requires Enabled(s, step)
    requires step.LoadSection? || step.SourceSettled? || step.CategorySettled? || step.SectionSettled?
    ensures SameLoads(s, Apply(s, step))
  {
    hide StartSection, SectionResponse, Settle, PagedView, PagedLog, PageColumns, SameLoads;
    match step {
      case LoadSection(t, i, initial) => StartSectionMoves(s, t, i, initial);
      case SourceSettled(t, page, dedupe) => SourceResponseMoves(s, t, page, dedupe);
      case CategorySettled(t, page, dedupe) =>
      case SectionSettled(t) => SettleMoves(s, t, s.tasks[t].owner, s.tasks[t].ok);
    }
    SectionKeepsLoads(s, Apply(s, step), step.task);
  }

  /** A load goes on after its discoveries and after each block. */
  lemma LoadGoesOn(s: State, step: Step)
    requires Enabled(s, step)
    requires step.SourceFailed? || step.SourcesSettled? || step.BlockSettled? || step.BannersSettled?
    ensures SameLoads(s, Apply(s, step))
  {
    hide Report, ReportBanners, ReportShortcuts, ReportBlocks, FirstLists, Columns, CategoryGoesOn, Publish, Without;
  }

  // --- The flags -----------------------------------------------------------

  lemma SameLoading(s: State, t: State)
    requires SameLoads(s, t)
    ensures Loading(s) <==> Loading(t)
  {
    hide LoadUnderWay;
  }

  /** The end of the current load leaves none under way. */
  lemma LoadEnds(s: State, t: nat)
    requires Inv(s) && Enabled(s, LoadSettled(t))
    ensures var u := Apply(s, LoadSettled(t));
            && u.revision == s.revision
            && if s.tasks[t].revision == s.revision then !Loading(u) else Loading(u) <==> Loading(s)
  {
    hide TasksOk, Placed, PagesInOrder, Apart, Flat, Values, Publish;
    var u := Apply(s, LoadSettled(t));
    if s.tasks[t].revision == s.revision {
      LoadIsAlone(s, t);
      assert forall k | IsCurrent(u, k) :: IsCurrent(s, k);
    } else {
      assert SameLoads(s, u);
    }
  }

  lemma LoadStarts(s: State, t: nat, input: Input)
    requires Inv(s) && Enabled(s, LoadCatalog(t, input))
    ensures var u := StartLoad(s, t, input); u.revision > 0 && (Loading(u) <==> input.Given?)
  {
    hide TasksApart, Placed, PagesInOrder, LoadTaskOk, SectionTaskOk;
    var u := StartLoad(s, t, input);
    assert forall k | k in s.tasks :: TaskOk(s, s.tasks[k]);
    if input.Given? {
      assert LoadUnderWay(u, t);
    }
  }

  lemma StepTells(c: Flagged, step: Step)
    requires Inv(c.state) && FlagsTell(c) && Enabled(c.state, step)
    ensures FlagsTell(Next(c, step))
  {
    hide Inv, Loading, Apply, Enabled;
    match step
    case LoadCatalog(t, input) =>
      LoadStarts(c.state, t, input);
      LoadIsApplied(c.state, t, input);
    case LoadSettled(t) =>
      SettledIsThere(c.state, t);
      LoadEnds(c.state, t);
      if c.state.tasks[t].revision == c.state.revision {
        LoadedOnce(c.state, t);
      }
    case Dispose => DisposalLoadsNothing(c.state);
    case LoadSection(_, _, _) => SectionStep(c.state, step); SameLoading(c.state, Apply(c.state, step));
    case SourceSettled(_, _, _) => SectionStep(c.state, step); SameLoading(c.state, Apply(c.state, step));
    case CategorySettled(_, _, _) => SectionStep(c.state, step); SameLoading(c.state, Apply(c.state, step));
    case SectionSettled(_) => SectionStep(c.state, step); SameLoading(c.state, Apply(c.state, step));
    case _ => LoadGoesOn(c.state, step); SameLoading(c.state, Apply(c.state, step));
  }

  lemma DisposalLoadsNothing(s: State)
    ensures Apply(s, Dispose).revision == s.revision + 1
  {
  }

  lemma LoadIsApplied(s: State, t: nat, input: Input)
    requires Enabled(s, LoadCatalog(t, input))
    ensures Apply(s, LoadCatalog(t, input)) == StartLoad(s, t, input)
  {
    hide StartLoad;
  }

  lemma SettledIsThere(s: State, t: nat)
    requires Enabled(s, LoadSettled(t))
    ensures t in s.tasks && s.tasks[t].Resolving?
  {
  }

  lemma LoadedOnce(s: State, t: nat)
    requires Inv(s) && t in s.tasks && s.tasks[t].Resolving? && s.tasks[t].revision == s.revision
    ensures Loading(s)
  {
    assert LoadUnderWay(s, t);
  }

  lemma {:induction false} RunTells(c: Flagged, steps: seq<Step>, d: Flagged)
    requires Inv(c.state) && FlagsTell(c) && FlaggedRun(c, steps, d)
    ensures FlagsTell(d)
    decreases |steps|
  {
    hide Inv, FlagsTell, Apply, Enabled;
    if steps != [] {
      StepKeeps(c.state, steps[0]);
      StepTells(c, steps[0]);
      RunTells(Next(c, steps[0]), steps[1..], d);
    }
  }

  lemma UnloadedTells()
    ensures FlagsTell(UNLOADED)
  {
    assert forall k: nat :: !LoadUnderWay(INITIAL, k);
  }

  /**
   On every schedule: `isLoading` says that a load of the current revision is
   under way, and `hasLoaded` that one started and none is, unless the scope was
   disposed since; never both; an error only once loaded.
   */
  lemma FlagsFollowLoads(steps: seq<Step>, d: Flagged)
    requires FlaggedRun(UNLOADED, steps, d)
    ensures !d.disposed ==> (d.flags.isLoading <==> exists k: nat :: LoadUnderWay(d.state, k))
    ensures !d.disposed ==> (d.flags.hasLoaded <==> d.state.revision > 0 && !exists k: nat :: LoadUnderWay(d.state, k))
    ensures !(d.flags.isLoading && d.flags.hasLoaded) && (d.flags.errorMessage.Some? ==> d.flags.hasLoaded)
  {
    hide LoadUnderWay, FlaggedRun, Inv;
    InitialInv();
    UnloadedTells();
    RunTells(UNLOADED, steps, d);
  }
}
