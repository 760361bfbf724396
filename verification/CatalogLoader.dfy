/** The catalog loader with its fields (useCustomHomeCatalog.ts), proved against the steps of the model. */
module CatalogLoader {
  import opened Wrappers
  import opened CatalogMembers
  import opened CustomHomeCatalog

  class HomeCatalog {
    var latestRequestId: nat
    var definition: Option<Definition>
    var members: seq<Member>
    var issues: seq<Issue>
    var loadingIds: set<Lock>
    var categories: map<string, CategoryState>
    var base: Base
    var catalog: Option<Published>
    var isLoading: bool
    var hasLoaded: bool
    var errorMessage: Option<string>
    /** Suspended calls with their captured locals. */
    var tasks: map<nat, Task>
    ghost var consumed: map<string, seq<nat>>

    ghost function View(): Shown
      reads this
    {
      Shown(members, issues, loadingIds, categories, base, catalog)
    }

    ghost function All(): State
      reads this
    {
      State(latestRequestId, definition, View(), tasks, consumed)
    }

    function LoadFlags(): Flags
      reads this
    {
      Flags(isLoading, hasLoaded, errorMessage)
    }

    constructor ()
      ensures All() == INITIAL && LoadFlags() == NOT_LOADED
    {
      isLoading, hasLoaded, errorMessage := false, false, None;
      latestRequestId, definition := 0, None;
      members, issues, loadingIds, categories, base, catalog := [], [], {}, map[], "", None;
      tasks, consumed := map[], map[];
    }

    method ReportIssue(id: string, repairRequired: bool)
      modifies `issues
      ensures View() == Report(old(View()), id, repairRequired)
    {
      issues := Without(issues, id) + [Issue(id, repairRequired)];
    }

    method PublishGroups()
      modifies `catalog
      ensures View() == Publish(old(View()), definition)
    {
      if definition.Some? {
        catalog := Some(Published(base, definition.value, members));
      }
    }

    /** The `finally` block of a load. */
    method EndLoad(revision: nat)
      modifies `isLoading, `hasLoaded
      ensures isLoading == (old(isLoading) && revision != latestRequestId)
      ensures hasLoaded == (old(hasLoaded) || revision == latestRequestId)
    {
      if revision == latestRequestId {
        isLoading, hasLoaded := false, true;
      }
    }

    method ClearShown()
      modifies `catalog, `issues, `loadingIds, `members, `categories, `base, `consumed
      ensures View() == NOTHING && consumed == map[]
    {
      catalog, issues, loadingIds, members := None, [], {}, [];
      categories, base, consumed := map[], "", map[];
    }

    method Load(t: nat, input: Input)
      modifies this
      ensures All() == StartLoad(old(All()), t, input)
      ensures LoadFlags() == FlagsAfter(old(All()), old(LoadFlags()), LoadCatalog(t, input))
    {
      latestRequestId := latestRequestId + 1;
      isLoading, hasLoaded, errorMessage := true, false, None;
      ClearShown();
      match input {
        case Absent =>
          definition := None;
          EndLoad(latestRequestId);
        case Invalid(message) =>
          errorMessage := Some(message);
          EndLoad(latestRequestId);
        case Given(d) =>
          definition := Some(d);
          tasks := tasks[t := Discovering(latestRequestId, d)];
      }
    }

    /** One discovery failed while the others go on. */
    method FailSource(t: nat, source: string)
      requires t in tasks && tasks[t].Discovering?
      modifies `issues
      ensures All() == Apply(old(All()), SourceFailed(t, source))
    {
      hide Report;
      if tasks[t].revision == latestRequestId {
        ReportIssue("source:" + source, false);
      }
    }

    /** The scope of the catalog ends: every call under way is of an older revision from now on. */
    method DisposeScope()
      modifies `latestRequestId
      ensures All() == Apply(old(All()), Dispose)
    {
      latestRequestId := latestRequestId + 1;
    }

    /** The three passes after the discoveries settled: banners, shortcuts, blocks. */
    method ReportMissing(d: Definition, ds: Discoveries, newBase: Base, index: nat -> string)
      modifies `issues, `base
      ensures View() == ReportBlocks(ReportShortcuts(ReportBanners(old(View()), ds, d.bannerSources).(base := newBase), ds, d.shortcuts, index),
                                     ds, d.blocks)
    {
      hide Report, ResolvesCategory, ResolvesBlock, IsAvailable;
      ghost var v0 := View();
      for i := 0 to |d.bannerSources|
        invariant View() == ReportBanners(v0, ds, d.bannerSources[..i])
      {
        assert d.bannerSources[..i + 1][..i] == d.bannerSources[..i];
        if !IsAvailable(ds, d.bannerSources[i]) {
          ReportIssue("banners:" + d.bannerSources[i], false);
        }
      }
      assert d.bannerSources[..|d.bannerSources|] == d.bannerSources;
      base := newBase;
      ReportSelections(d, ds, index);
    }

    method ReportSelections(d: Definition, ds: Discoveries, index: nat -> string)
      modifies `issues
      ensures View() == ReportBlocks(ReportShortcuts(old(View()), ds, d.shortcuts, index), ds, d.blocks)
    {
      hide Report, ResolvesCategory, ResolvesBlock, IsAvailable;
      ghost var v0 := View();
      for i := 0 to |d.shortcuts|
        invariant View() == ReportShortcuts(v0, ds, d.shortcuts[..i], index)
      {
        assert d.shortcuts[..i + 1][..i] == d.shortcuts[..i];
        if !ResolvesCategory(ds, d.shortcuts[i].sourceId, d.shortcuts[i].categoryKey) {
          ReportIssue("shortcut:" + index(i), IsAvailable(ds, d.shortcuts[i].sourceId));
        }
      }
      assert d.shortcuts[..|d.shortcuts|] == d.shortcuts;
      ghost var v1 := View();
      for i := 0 to |d.blocks|
        invariant View() == ReportBlocks(v1, ds, d.blocks[..i])
      {
        assert d.blocks[..i + 1][..i] == d.blocks[..i];
        if !ResolvesBlock(ds, d.blocks[i]) {
          ReportIssue("block:" + d.blocks[i].id, IsAvailable(ds, d.blocks[i].sourceId) && d.blocks[i].kind.SectionBlock?);
        }
      }
      assert d.blocks[..|d.blocks|] == d.blocks;
    }

    method ResumeSources(t: nat, ds: Discoveries, newBase: Base, index: nat -> string)
      requires t in tasks && tasks[t].Discovering?
      modifies `issues, `base, `tasks
      ensures All() == Discovered(old(All()), t, ds, newBase, index)
    {
      hide ReportBlocks, ReportShortcuts, ReportBanners, FirstLists;
      var task := tasks[t];
      if task.revision != latestRequestId {
        tasks := tasks - {t};
        return;
      }
      ReportMissing(task.definition, ds, newBase, index);
      tasks := tasks[t := Resolving(task.revision, task.definition, FirstLists(ds, task.definition.blocks))];
    }

    method SettleBlock(t: nat, i: nat, list: seq<Member>)
      requires t in tasks && tasks[t].Resolving? && i < |tasks[t].lists|
      modifies `tasks
      ensures All() == SetList(old(All()), t, i, list)
    {
      tasks := tasks[t := tasks[t].(lists := tasks[t].lists[i := Some(list)])];
    }

    method ResumeBlock(t: nat, i: nat, result: Result<Page, string>)
      requires AwaitsBlock(All(), t, i)
      modifies `issues, `categories, `consumed, `tasks
      ensures All() == BlockLoaded(old(All()), t, i, result)
    {
      hide SetList, Columns, CategoryGoesOn, Report;
      var task, b := tasks[t], tasks[t].definition.blocks[i];
      if task.revision != latestRequestId {
        SettleBlock(t, i, []);
        return;
      }
      ghost var before := All();
      SetListIs(before, t, i, []);
      match result {
        case Err(_) =>
          ReportIssue("block:" + b.id, false);
          SettleBlock(t, i, []);
          SetListIs(before.(shown := View()), t, i, []);
        case Ok(page) =>
          categories := categories[b.id := CategoryState(1, CategoryGoesOn(page))];
          consumed := consumed[b.id := [1]];
          var columns := Columns(b.id, page, b.title);
          if columns.None? {
            ReportIssue("block:" + b.id, false);
          }
          ghost var middle := All();
          SettleBlock(t, i, columns.GetOr([]));
          SetListIs(middle, t, i, columns.GetOr([]));
          SetListIs(before, t, i, columns.GetOr([]));
      }
    }

    static lemma SetListIs(s: State, t: nat, i: nat, list: seq<Member>)
      requires t in s.tasks && s.tasks[t].Resolving? && i < |s.tasks[t].lists|
      ensures SetList(s, t, i, list) == s.(tasks := s.tasks[t := s.tasks[t].(lists := s.tasks[t].lists[i := Some(list)])])
    {
    }

    method ResumeLoad(t: nat)
      requires BlocksSettled(All(), t)
      modifies `members, `catalog, `tasks, `isLoading, `hasLoaded
      ensures All() == LoadDone(old(All()), t)
      ensures LoadFlags() == FlagsAfter(old(All()), old(LoadFlags()), LoadSettled(t))
    {
      hide Flat, Publish;
      var task := tasks[t];
      tasks := tasks - {t};
      if task.revision != latestRequestId {
        return;
      }
      members := Flat(Values(task.lists));
      PublishGroups();
      EndLoad(task.revision);
    }

    /** The end of a section call, as its `catch` and `finally` leave it. */
    method SettleCall(t: nat, owner: Owner, ok: bool)
      modifies `issues, `loadingIds, `catalog, `tasks
      ensures All() == Settle(old(All()), t, owner, ok)
    {
      hide Publish, Without;
      if ok {
        issues := Without(issues, owner.id);
      } else {
        ReportIssue(owner.id, false);
      }
      loadingIds := loadingIds - {MemberLock(owner.id)};
      PublishGroups();
      tasks := tasks - {t};
    }

    /** What follows the sources of a member, up to the request of a category page. */
    method ContinueWithCategory(t: nat, owner: Owner, initial: bool)
      modifies `issues, `loadingIds, `catalog, `tasks
      ensures All() == AfterPages(old(All()), t, owner, initial)
    {
      hide Settle;
      if !initial && owner.categoryPage && owner.blockId in categories && categories[owner.blockId].haveMore {
        var state := categories[owner.blockId];
        if CategoryLock(owner.blockId) in loadingIds {
          tasks := tasks[t := Finishing(latestRequestId, owner, true)];
          return;
        }
        loadingIds := loadingIds + {CategoryLock(owner.blockId)};
        tasks := tasks[t := Paging(latestRequestId, owner, state)];
      } else {
        SettleCall(t, owner, true);
      }
    }

    /** `loadSection` for one member of the render group. */
    method LoadMember(t: nat, i: nat, initial: bool)
      requires i < |members|
      modifies `issues, `loadingIds, `catalog, `tasks
      ensures All() == StartSection(old(All()), t, i, initial)
    {
      hide AfterPages, WantedSources;
      var member := members[i];
      var owner := Owner(member.id, member.blockId, member.categoryPage);
      if MemberLock(member.id) in loadingIds { return; }
      loadingIds := loadingIds + {MemberLock(member.id)};
      var sources := WantedSources(member.section.sources, initial);
      if sources == [] {
        ContinueWithCategory(t, owner, initial);
      } else {
        tasks := tasks[t := Fetching(latestRequestId, owner, initial, member.section, sources, false)];
      }
    }

    method ContinueWithSources(t: nat, task: Task)
      requires task.Fetching?
      modifies `issues, `loadingIds, `catalog, `tasks
      ensures All() == NextSource(old(All()), t, task)
    {
      hide AfterPages, Settle;
      if task.queue != [] {
        tasks := tasks[t := task];
      } else if task.failed {
        SettleCall(t, task.owner, false);
      } else {
        ContinueWithCategory(t, task.owner, task.initial);
      }
    }

    method ResumeSource(t: nat, result: Result<SourcePage, string>, dedupe: Dedupe)
      requires t in tasks && tasks[t].Fetching? && tasks[t].queue != []
      modifies `members, `issues, `loadingIds, `catalog, `tasks
      ensures All() == SectionResponse(old(All()), t, result, dedupe)
    {
      hide NextSource, Advanced, WriteBack, Publish;
      var task := tasks[t];
      if task.revision != latestRequestId {
        tasks := tasks - {t};
        return;
      }
      match result {
        case Err(_) => ContinueWithSources(t, task.(queue := task.queue[1..], failed := true));
        case Ok(page) =>
          var next := Advanced(task.next, task.queue[0], page, dedupe);
          members := WriteBack(members, task.owner.id, next);
          PublishGroups();
          ContinueWithSources(t, task.(next := next, queue := task.queue[1..]));
      }
    }

    method ResumeCategory(t: nat, result: Result<Page, string>, dedupe: Dedupe)
      requires t in tasks && tasks[t].Paging?
      modifies `members, `categories, `consumed, `loadingIds, `tasks
      ensures All() == CategoryResponse(old(All()), t, result, dedupe)
    {
      hide PageColumns, MergePage, CategoryGoesOn;
      var task := tasks[t];
      if task.revision != latestRequestId {
        tasks := tasks - {t};
        return;
      }
      var b, columns := task.owner.blockId, PageColumns(definition, task, result);
      if columns.Some? {
        members := MergePage(members, b, columns.value, dedupe);
        categories := categories[b := CategoryState(task.category.page + 1, CategoryGoesOn(result.value))];
        consumed := consumed[b := (if b in consumed then consumed[b] else []) + [task.category.page + 1]];
      }
      loadingIds := loadingIds - {CategoryLock(b)};
      tasks := tasks[t := Finishing(task.revision, task.owner, columns.Some?)];
    }

    method ResumeCall(t: nat)
      requires t in tasks && tasks[t].Finishing?
      modifies `issues, `loadingIds, `catalog, `tasks
      ensures All() == FinishSection(old(All()), t)
    {
      hide Settle;
      var task := tasks[t];
      if task.revision != latestRequestId {
        tasks := tasks - {t};
        return;
      }
      SettleCall(t, task.owner, task.ok);
    }

    method ResumeBanners(revision: nat, source: string, newBase: Option<Base>)
      modifies `issues, `base, `catalog
      ensures All() == BannersLoaded(old(All()), revision, source, newBase)
    {
      hide Report, Publish, Without;
      if revision != latestRequestId { return; }
      if newBase.None? {
        ReportIssue("banners:" + source, false);
      } else {
        issues := Without(issues, "banners:" + source);
        base := newBase.value;
        PublishGroups();
      }
    }
  }
}
