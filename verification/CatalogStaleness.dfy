/**
 What the revision guards of a custom home catalog amount to
 (useCustomHomeCatalog.ts): a new load, or the disposal of the scope, cancels
 every call under way, although the program never cancels anything.
 */
module CatalogStaleness {
  import opened Wrappers
  import opened CatalogMembers
  import opened CustomHomeCatalog

  // --- Revisions -----------------------------------------------------------

  predicate Starts(step: Step, k: nat) {
    (step.LoadCatalog? || step.LoadSection?) && step.task == k
  }

  /** The step runs a continuation that belongs to the task `k`. */
  predicate Resumes(step: Step, k: nat) {
    !step.LoadCatalog? && !step.LoadSection? && !step.BannersSettled? && !step.Dispose? && step.task == k
  }

  /** No task is ahead of the revision of the scope. */
  predicate NoneAhead(s: State) {
    forall k | k in s.tasks :: s.tasks[k].revision <= s.revision
  }

  lemma SettleKeepsTasks(s: State, t: nat, owner: Owner, ok: bool)
    ensures var u := Settle(s, t, owner, ok); u.revision == s.revision && u.tasks == s.tasks - {t}
  {
  }

  /** After its own pages, a section call keeps its revision or ends. */
  lemma AfterPagesTasks(s: State, t: nat, owner: Owner, initial: bool)
    ensures var u := AfterPages(s, t, owner, initial);
            && u.revision == s.revision
            && (u.tasks == s.tasks - {t} || (t in u.tasks && u.tasks[t].revision == s.revision && u.tasks == s.tasks[t := u.tasks[t]]))
  {
    hide Settle;
    SettleKeepsTasks(s, t, owner, true);
  }

  lemma NextSourceTasks(s: State, t: nat, task: Task)
    requires task.Fetching? && task.revision == s.revision
    ensures var u := NextSource(s, t, task);
            && u.revision == s.revision
            && (u.tasks == s.tasks - {t} || (t in u.tasks && u.tasks[t].revision == s.revision && u.tasks == s.tasks[t := u.tasks[t]]))
  {
    hide Settle, AfterPages;
    SettleKeepsTasks(s, t, task.owner, false);
    AfterPagesTasks(s, t, task.owner, task.initial);
  }

  /** A resumed task ends or keeps its revision; no other task is touched. */
  lemma ResumedTask(s: State, step: Step, k: nat)
    requires Enabled(s, step) && Resumes(step, k)
    ensures k in s.tasks
    ensures var u := Apply(s, step);
            && u.revision == s.revision
            && (u.tasks == s.tasks - {k}
                || (k in u.tasks && u.tasks[k].revision == s.tasks[k].revision && u.tasks == s.tasks[k := u.tasks[k]]))
  {
    hide Settle, AfterPages, NextSource, Advanced, WriteBack, Publish, PagedView, PagedLog, PageColumns, Columns, Report;
    hide ReportBanners, ReportShortcuts, ReportBlocks, FirstLists, Values, Flat, CategoryGoesOn;
    match step {
      case SourceSettled(t, Err(_), _) =>
        if s.tasks[t].revision == s.revision {
          NextSourceTasks(s, t, s.tasks[t].(queue := s.tasks[t].queue[1..], failed := true));
        }
      case SourceSettled(t, Ok(page), dedupe) =>
        var task := s.tasks[t];
        if task.revision == s.revision {
          var next := Advanced(task.next, task.queue[0], page, dedupe);
          var shown := s.shown.(members := WriteBack(s.shown.members, task.owner.id, next));
          NextSourceTasks(s.(shown := Publish(shown, s.definition)), t, task.(next := next, queue := task.queue[1..]));
        }
      case SectionSettled(t) => SettleKeepsTasks(s, t, s.tasks[t].owner, s.tasks[t].ok);
      case SourceFailed(t, _) => assert s.tasks[t := s.tasks[t]] == s.tasks;
      case _ =>
    }
  }

  /** A started task has the revision of the scope; no other task is touched, and a load opens a new revision. */
  lemma StartedTask(s: State, step: Step)
    requires Enabled(s, step) && (step.LoadCatalog? || step.LoadSection?)
    ensures var u := Apply(s, step);
            && u.revision == s.revision + (if step.LoadCatalog? then 1 else 0)
            && (u.tasks == s.tasks
                || (step.task in u.tasks && u.tasks[step.task].revision == u.revision
                    && u.tasks == s.tasks[step.task := u.tasks[step.task]]))
  {
    hide AfterPages, WantedSources;
    if step.LoadSection? {
      var m := s.shown.members[step.member];
      var owner := Owner(m.id, m.blockId, m.categoryPage);
      var locked := s.(shown := s.shown.(loading := s.shown.loading + {MemberLock(m.id)}));
      AfterPagesTasks(locked, step.task, owner, step.initial);
      assert s.tasks - {step.task} == s.tasks;
    }
  }

  /** Revisions only grow, and none is ahead of the scope's. */
  lemma StepRevisions(s: State, step: Step)
    requires Enabled(s, step) && NoneAhead(s)
    ensures s.revision <= Apply(s, step).revision && NoneAhead(Apply(s, step))
  {
    hide Apply, Enabled;
    if step.LoadCatalog? || step.LoadSection? {
      StartedTask(s, step);
    } else if step.BannersSettled? || step.Dispose? {
      OtherStep(s, step);
    } else {
      ResumedTask(s, step, step.task);
    }
  }

  lemma OtherStep(s: State, step: Step)
    requires Enabled(s, step) && (step.BannersSettled? || step.Dispose?)
    ensures var u := Apply(s, step); u.tasks == s.tasks && s.revision <= u.revision
  {
  }

  /** What a step that does not start `k` makes of the task `k`. */
  lemma StepKeepsRevision(s: State, step: Step, k: nat)
    requires Enabled(s, step) && !Starts(step, k)
    ensures s.revision <= Apply(s, step).revision
    ensures k in Apply(s, step).tasks ==> k in s.tasks && Apply(s, step).tasks[k].revision == s.tasks[k].revision
  {
    hide Apply, Enabled;
    if step.LoadCatalog? || step.LoadSection? {
      StartedTask(s, step);
    } else if step.BannersSettled? || step.Dispose? {
      OtherStep(s, step);
    } else {
      ResumedTask(s, step, step.task);
    }
  }

  /**
   A task that was overtaken stays overtaken: in every later state, as long as no
   new call has its number, it is gone or still has its old revision.
   */
  lemma {:induction false} OvertakenStaysOvertaken(s: State, steps: seq<Step>, t: State, k: nat)
    requires Run(s, steps, t) && forall i | 0 <= i < |steps| :: !Starts(steps[i], k)
    ensures s.revision <= t.revision
    ensures k in t.tasks ==> k in s.tasks && t.tasks[k].revision == s.tasks[k].revision
    decreases |steps|
  {
    hide Apply, Enabled;
    if steps != [] {
      StepKeepsRevision(s, steps[0], k);
      OvertakenStaysOvertaken(Apply(s, steps[0]), steps[1..], t, k);
    }
  }

  /** The response of an overtaken call changes nothing shown and no current call, however late it arrives. */
  lemma OvertakenCallsAreInert(s: State, steps: seq<Step>, t: State, k: nat, step: Step)
    requires Run(s, steps, t) && k in s.tasks && s.tasks[k].revision < s.revision
    requires forall i | 0 <= i < |steps| :: !Starts(steps[i], k)
    requires Enabled(t, step) && Resumes(step, k)
    ensures Apply(t, step) == t.(tasks := Apply(t, step).tasks)
    ensures forall l | l in t.tasks && t.tasks[l].revision == t.revision ::
              l in Apply(t, step).tasks && Apply(t, step).tasks[l] == t.tasks[l]
  {
    hide Apply, Run;
    OvertakenStaysOvertaken(s, steps, t, k);
    ResumedTask(t, step, k);
    assert IsStale(t, step);
    StaleStepsAreInert(t, step);
  }

  // --- Cancellation --------------------------------------------------------

  function Ongoing(tasks: map<nat, Task>, revision: nat): map<nat, Task> {
    map k | k in tasks && tasks[k].revision == revision :: tasks[k]
  }

  /** The state as if every overtaken call had been cancelled. */
  function Cancelled(s: State): State {
    s.(tasks := Ongoing(s.tasks, s.revision))
  }

  /** A run of a program that cancels overtaken calls after every step. */
  ghost predicate CancellingRun(s: State, steps: seq<Step>, t: State)
    decreases |steps|
  {
    if steps == [] then s == t
    else Enabled(s, steps[0]) && CancellingRun(Cancelled(Apply(s, steps[0])), steps[1..], t)
  }

  /** The steps that are not the response of an overtaken call. */
  ghost function Timely(s: State, steps: seq<Step>): seq<Step>
    decreases |steps|
  {
    if steps == [] || !Enabled(s, steps[0]) then [] else
      var rest := Timely(Apply(s, steps[0]), steps[1..]);
      if IsStale(s, steps[0]) then rest else [steps[0]] + rest
  }

  lemma OngoingPut(tasks: map<nat, Task>, revision: nat, k: nat, task: Task)
    ensures Ongoing(Ongoing(tasks, revision)[k := task], revision) == Ongoing(tasks[k := task], revision)
  {
  }

  lemma OngoingDrop(tasks: map<nat, Task>, revision: nat, k: nat)
    ensures Ongoing(Ongoing(tasks, revision) - {k}, revision) == Ongoing(tasks - {k}, revision)
    ensures Ongoing(Ongoing(tasks, revision), revision) == Ongoing(tasks, revision)
  {
  }

  /** Two states whose tasks differ in overtaken calls only. */
  ghost predicate Alike(s: State, u: State) {
    Cancelled(s) == Cancelled(u)
  }

  lemma StaleStepIsNothing(s: State, step: Step)
    requires Enabled(s, step) && IsStale(s, step)
    ensures Cancelled(Apply(s, step)) == Cancelled(s)
  {
    hide Apply, Enabled;
    StaleStepsAreInert(s, step);
    if step.BannersSettled? {
      OtherStep(s, step);
    } else {
      ResumedTask(s, step, step.task);
    }
  }

  lemma PutAlike(s: State, u: State, v: Shown, k: nat, task: Task)
    requires Alike(s, u)
    ensures Alike(s.(shown := v, tasks := s.tasks[k := task]), u.(shown := v, tasks := u.tasks[k := task]))
  {
    OngoingPut(s.tasks, s.revision, k, task);
    OngoingPut(u.tasks, s.revision, k, task);
  }

  lemma DropAlike(s: State, u: State, v: Shown, k: nat)
    requires Alike(s, u)
    ensures Alike(s.(shown := v, tasks := s.tasks - {k}), u.(shown := v, tasks := u.tasks - {k}))
  {
    OngoingDrop(s.tasks, s.revision, k);
    OngoingDrop(u.tasks, s.revision, k);
  }

  lemma AlikeFields(s: State, u: State)
    requires Alike(s, u)
    ensures s.revision == u.revision && s.definition == u.definition && s.shown == u.shown && s.consumed == u.consumed
  {
    assert Cancelled(s).shown == Cancelled(u).shown;
  }

  lemma ShownAlike(s: State, u: State, v: Shown)
    requires Alike(s, u)
    ensures Alike(s.(shown := v), u.(shown := v))
  {
    assert Cancelled(s).tasks == Cancelled(u).tasks;
  }

  lemma LogAlike(s: State, u: State, log: map<string, seq<nat>>)
    requires Alike(s, u)
    ensures Alike(s.(consumed := log), u.(consumed := log))
  {
    assert Cancelled(s).tasks == Cancelled(u).tasks;
  }

  lemma SettleAlike(s: State, u: State, k: nat, owner: Owner, ok: bool)
    requires Alike(s, u)
    ensures Alike(Settle(s, k, owner, ok), Settle(u, k, owner, ok))
  {
    hide Alike, Without, Report, Publish;
    AlikeFields(s, u);
    var noted := if ok then s.shown.(issues := Without(s.shown.issues, owner.id)) else Report(s.shown, owner.id, false);
    DropAlike(s, u, Publish(noted.(loading := noted.loading - {MemberLock(owner.id)}), s.definition), k);
  }

  lemma AfterPagesAlike(s: State, u: State, k: nat, owner: Owner, initial: bool)
    requires Alike(s, u)
    ensures Alike(AfterPages(s, k, owner, initial), AfterPages(u, k, owner, initial))
  {
    hide Alike, Settle;
    AlikeFields(s, u);
    var b, v := owner.blockId, s.shown;
    SettleAlike(s, u, k, owner, true);
    PutAlike(s, u, v, k, Finishing(s.revision, owner, true));
    if b in v.categories {
      PutAlike(s, u, v.(loading := v.loading + {CategoryLock(b)}), k, Paging(s.revision, owner, v.categories[b]));
    }
  }

  lemma NextSourceAlike(s: State, u: State, k: nat, task: Task)
    requires Alike(s, u) && task.Fetching?
    ensures Alike(NextSource(s, k, task), NextSource(u, k, task))
  {
    hide Alike, Settle, AfterPages;
    AlikeFields(s, u);
    PutAlike(s, u, s.shown, k, task);
    SettleAlike(s, u, k, task.owner, false);
    AfterPagesAlike(s, u, k, task.owner, task.initial);
  }

  lemma StartSectionAlike(s: State, u: State, k: nat, i: nat, initial: bool)
    requires Alike(s, u) && i < |s.shown.members| && i < |u.shown.members|
    ensures Alike(StartSection(s, k, i, initial), StartSection(u, k, i, initial))
  {
    hide Alike, AfterPages, WantedSources;
    AlikeFields(s, u);
    var m := s.shown.members[i];
    var owner := Owner(m.id, m.blockId, m.categoryPage);
    var v := s.shown.(loading := s.shown.loading + {MemberLock(m.id)});
    var sources := WantedSources(m.section.sources, initial);
    ShownAlike(s, u, v);
    AfterPagesAlike(s.(shown := v), u.(shown := v), k, owner, initial);
    PutAlike(s, u, v, k, Fetching(s.revision, owner, initial, m.section, sources, false));
  }

  /** A call that is not overtaken is under way whether or not overtaken calls are cancelled. */
  lemma OngoingTask(s: State, k: nat)
    ensures k in Cancelled(s).tasks <==> k in s.tasks && s.tasks[k].revision == s.revision
    ensures k in Cancelled(s).tasks ==> Cancelled(s).tasks[k] == s.tasks[k]
    ensures Alike(s, Cancelled(s))
  {
    OngoingDrop(s.tasks, s.revision, k);
  }

  lemma SectionResponseAlike(s: State, u: State, k: nat, result: Result<SourcePage, string>, dedupe: Dedupe)
    requires Alike(s, u) && k in s.tasks && k in u.tasks && s.tasks[k] == u.tasks[k] && s.tasks[k].revision == s.revision
    requires s.tasks[k].Fetching? && s.tasks[k].queue != []
    ensures Alike(SectionResponse(s, k, result, dedupe), SectionResponse(u, k, result, dedupe))
  {
    hide Alike, NextSource, Advanced, WriteBack, Publish;
    AlikeFields(s, u);
    var task := s.tasks[k];
    match result
    case Err(_) => NextSourceAlike(s, u, k, task.(queue := task.queue[1..], failed := true));
    case Ok(page) =>
      var next := Advanced(task.next, task.queue[0], page, dedupe);
      var v := Publish(s.shown.(members := WriteBack(s.shown.members, task.owner.id, next)), s.definition);
      ShownAlike(s, u, v);
      NextSourceAlike(s.(shown := v), u.(shown := v), k, task.(next := next, queue := task.queue[1..]));
  }

  lemma CategoryResponseAlike(s: State, u: State, k: nat, result: Result<Page, string>, dedupe: Dedupe)
    requires Alike(s, u) && k in s.tasks && k in u.tasks && s.tasks[k] == u.tasks[k] && s.tasks[k].revision == s.revision
    requires s.tasks[k].Paging?
    ensures Alike(CategoryResponse(s, k, result, dedupe), CategoryResponse(u, k, result, dedupe))
  {
    hide Alike, PagedView, PagedLog, PageColumns;
    AlikeFields(s, u);
    var task := s.tasks[k];
    var after := Finishing(task.revision, task.owner, PageColumns(s.definition, task, result).Some?);
    var v := PagedView(s.shown, s.definition, task, result, dedupe);
    PutAlike(s, u, v, k, after);
    LogAlike(s.(shown := v, tasks := s.tasks[k := after]), u.(shown := v, tasks := u.tasks[k := after]),
             PagedLog(s.consumed, s.definition, task, result));
  }

  lemma BlockLoadedAlike(s: State, u: State, k: nat, i: nat, result: Result<Page, string>)
    requires Alike(s, u) && AwaitsBlock(s, k, i) && AwaitsBlock(u, k, i)
    requires s.tasks[k] == u.tasks[k] && s.tasks[k].revision == s.revision
    ensures Alike(BlockLoaded(s, k, i, result), BlockLoaded(u, k, i, result))
  {
    hide Alike, Report, Columns, CategoryGoesOn;
    AlikeFields(s, u);
    var task, b := s.tasks[k], s.tasks[k].definition.blocks[i];
    var after := (list: seq<Member>) => task.(lists := task.lists[i := Some(list)]);
    match result
    case Err(_) => PutAlike(s, u, Report(s.shown, "block:" + b.id, false), k, after([]));
    case Ok(page) =>
      var v := s.shown.(categories := s.shown.categories[b.id := CategoryState(1, CategoryGoesOn(page))]);
      var log := s.consumed[b.id := [1]];
      var columns := Columns(b.id, page, b.title);
      LogAlike(s, u, log);
      if columns.Some? {
        PutAlike(s.(consumed := log), u.(consumed := log), v, k, after(columns.value));
      } else {
        PutAlike(s.(consumed := log), u.(consumed := log), Report(v, "block:" + b.id, false), k, after([]));
      }
  }

  lemma DiscoveredAlike(s: State, u: State, k: nat, ds: Discoveries, base: Base, index: nat -> string)
    requires Alike(s, u) && k in s.tasks && k in u.tasks && s.tasks[k] == u.tasks[k] && s.tasks[k].revision == s.revision
    requires s.tasks[k].Discovering?
    ensures Alike(Discovered(s, k, ds, base, index), Discovered(u, k, ds, base, index))
  {
    hide Alike, ReportBanners, ReportShortcuts, ReportBlocks, FirstLists;
    AlikeFields(s, u);
    var task := s.tasks[k];
    var d := task.definition;
    var banners := ReportBanners(s.shown, ds, d.bannerSources).(base := base);
    var v := ReportBlocks(ReportShortcuts(banners, ds, d.shortcuts, index), ds, d.blocks);
    PutAlike(s, u, v, k, Resolving(task.revision, d, FirstLists(ds, d.blocks)));
  }

  lemma LoadDoneAlike(s: State, u: State, k: nat)
    requires Alike(s, u) && BlocksSettled(s, k) && BlocksSettled(u, k)
    requires s.tasks[k] == u.tasks[k] && s.tasks[k].revision == s.revision
    ensures Alike(LoadDone(s, k), LoadDone(u, k))
  {
    hide Alike, Publish, Flat, Values;
    AlikeFields(s, u);
    DropAlike(s, u, Publish(s.shown.(members := Flat(Values(s.tasks[k].lists))), s.definition), k);
  }

  lemma NothingOngoing(s: State, revision: nat)
    requires NoneAhead(s) && revision > s.revision
    ensures Ongoing(s.tasks, revision) == map[] == Ongoing(Cancelled(s).tasks, revision)
  {
  }

  /** A new revision finds no call of its own; what it starts is all there is. */
  lemma NewRevisionAlike(s: State, step: Step)
    requires NoneAhead(s) && Enabled(s, step) && (step.LoadCatalog? || step.Dispose?)
    ensures Enabled(Cancelled(s), step) && Alike(Apply(s, step), Apply(Cancelled(s), step))
  {
    hide Ongoing, NoneAhead, BlockIds;
    var revision := s.revision + 1;
    NothingOngoing(s, revision);
    match step {
      case Dispose =>
      case LoadCatalog(t, input) =>
        OngoingTask(s, t);
        if input.Given? {
          OngoingPut(s.tasks, revision, t, Discovering(revision, input.definition));
          OngoingPut(Cancelled(s).tasks, revision, t, Discovering(revision, input.definition));
        }
    }
  }

  lemma ResumedAlike(s: State, step: Step, k: nat)
    requires Enabled(s, step) && Resumes(step, k) && !IsStale(s, step)
    ensures Enabled(Cancelled(s), step) && Alike(Apply(s, step), Apply(Cancelled(s), step))
  {
    hide Alike, Cancelled, Discovered, BlockLoaded, LoadDone, SectionResponse, CategoryResponse, Settle, Report;
    var u := Cancelled(s);
    OngoingTask(s, k);
    AlikeFields(s, u);
    match step {
      case SourceFailed(t, source) => ShownAlike(s, u, Report(s.shown, "source:" + source, false));
      case SourcesSettled(t, ds, base, index) => DiscoveredAlike(s, u, t, ds, base, index);
      case BlockSettled(t, i, page) => BlockLoadedAlike(s, u, t, i, page);
      case LoadSettled(t) => LoadDoneAlike(s, u, t);
      case SourceSettled(t, page, dedupe) => SectionResponseAlike(s, u, t, page, dedupe);
      case CategorySettled(t, page, dedupe) => CategoryResponseAlike(s, u, t, page, dedupe);
      case SectionSettled(t) => SettleAlike(s, u, t, s.tasks[t].owner, s.tasks[t].ok);
    }
  }

  lemma OtherAlike(s: State, step: Step)
    requires Enabled(s, step) && (step.LoadSection? || step.BannersSettled?)
    ensures Enabled(Cancelled(s), step) && Alike(Apply(s, step), Apply(Cancelled(s), step))
  {
    hide Alike, Cancelled, StartSection, Report, Without, Publish;
    var u := Cancelled(s);
    AlikeSelf(s);
    AlikeFields(s, u);
    match step {
      case LoadSection(t, i, initial) =>
        OngoingTask(s, t);
        StartSectionAlike(s, u, t, i, initial);
      case BannersSettled(revision, source, base) =>
        ShownAlike(s, u, Apply(s, step).shown);
    }
  }

  lemma AlikeSelf(s: State)
    ensures Alike(s, Cancelled(s))
  {
    OngoingDrop(s.tasks, s.revision, 0);
  }

  lemma TimelyStep(s: State, step: Step)
    requires NoneAhead(s) && Enabled(s, step) && !IsStale(s, step)
    ensures Enabled(Cancelled(s), step) && Cancelled(Apply(Cancelled(s), step)) == Cancelled(Apply(s, step))
  {
    hide Enabled, Apply, Cancelled;
    if step.LoadCatalog? || step.Dispose? {
      NewRevisionAlike(s, step);
    } else if step.LoadSection? || step.BannersSettled? {
      OtherAlike(s, step);
    } else {
      ResumedAlike(s, step, step.task);
    }
  }

  /**
   The guards cancel: with the responses of overtaken calls left out, every
   schedule is one of a program in which each new load and each disposal cancels
   all calls under way, and it shows the same.
   */
  lemma {:induction false} GuardsCancel(s: State, steps: seq<Step>, t: State)
    requires NoneAhead(s) && Run(s, steps, t)
    ensures CancellingRun(Cancelled(s), Timely(s, steps), Cancelled(t))
    decreases |steps|
  {
    hide Enabled, Apply, Cancelled, NoneAhead, IsStale;
    if steps != [] {
      StepRevisions(s, steps[0]);
      GuardsCancel(Apply(s, steps[0]), steps[1..], t);
      if IsStale(s, steps[0]) {
        StaleStepIsNothing(s, steps[0]);
      } else {
        TimelyStep(s, steps[0]);
        assert Timely(s, steps)[1..] == Timely(Apply(s, steps[0]), steps[1..]);
      }
    }
  }

  /** From the start: what is shown is what the cancelling program shows. */
  lemma CatalogActsAsIfCancelled(steps: seq<Step>, t: State)
    requires Run(INITIAL, steps, t)
    ensures CancellingRun(INITIAL, Timely(INITIAL, steps), Cancelled(t)) && Cancelled(t).shown == t.shown
  {
    GuardsCancel(INITIAL, steps, t);
    assert Cancelled(INITIAL) == INITIAL;
  }

  /** However many responses of overtaken calls arrive, nothing that is shown changes. */
  lemma {:induction false} StaleRunsAreInert(s: State, steps: seq<Step>, t: State)
    requires Run(s, steps, t) && Timely(s, steps) == []
    ensures Cancelled(t) == Cancelled(s)
    ensures t.shown == s.shown && t.consumed == s.consumed && t.definition == s.definition
    decreases |steps|
  {
    hide Enabled, Apply, IsStale;
    if steps != [] {
      StaleStepIsNothing(s, steps[0]);
      StaleRunsAreInert(Apply(s, steps[0]), steps[1..], t);
      assert Cancelled(t).shown == Cancelled(s).shown;
    }
  }
}
