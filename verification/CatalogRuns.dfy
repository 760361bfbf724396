/**
 What every schedule of the custom home catalog keeps (useCustomHomeCatalog.ts):
 members in place, category pages taken in order and once each, locks held by the
 calls that took them.
 */
module CatalogRuns {
  import opened Wrappers
  import opened Sequences
  import opened Json
  import opened CatalogMembers
  import opened CustomHomeCatalog

  // --- Invariant -----------------------------------------------------------

  ghost predicate Placed(s: State) {
    && (s.definition.Some? ==> Distinct(BlockIds(s.definition.value)) && WellPlaced(s.shown.members, BlockIds(s.definition.value)))
    && (s.definition.None? ==> s.shown.members == [])
  }

  /** Pages 1 to n, in order and once each. */
  ghost predicate PagesUpTo(pages: seq<nat>, n: nat) {
    |pages| == n && forall i | 0 <= i < n :: pages[i] == i + 1
  }

  /** Each category has taken over exactly the pages up to its current one. */
  ghost predicate PagesInOrder(s: State) {
    && s.shown.categories.Keys == s.consumed.Keys
    && forall b | b in s.shown.categories :: PagesUpTo(s.consumed[b], s.shown.categories[b].page)
  }

  predicate IsLoad(task: Task) {
    task.Discovering? || task.Resolving?
  }

  /** Some member has this id and stands in this block. */
  ghost predicate Stands(ms: seq<Member>, owner: Owner) {
    exists i | 0 <= i < |ms| :: ms[i].id == owner.id && ms[i].blockId == owner.blockId
  }

  ghost predicate SectionTaskOk(v: Shown, task: Task)
    requires !IsLoad(task)
  {
    && Stands(v.members, task.owner)
    && MemberLock(task.owner.id) in v.loading
    && (task.Fetching? ==> task.queue != [])
    && (task.Paging? ==>
          && CategoryLock(task.owner.blockId) in v.loading
          && task.owner.blockId in v.categories && v.categories[task.owner.blockId] == task.category)
  }

  ghost predicate ListsOk(d: Definition, lists: seq<Option<seq<Member>>>) {
    |lists| == |d.blocks| && forall i | 0 <= i < |lists| && lists[i].Some? :: BlockMembers(d.blocks[i].id, lists[i].value)
  }

  ghost predicate LoadTaskOk(s: State, task: Task)
    requires IsLoad(task)
  {
    && s.definition == Some(task.definition) && s.shown.members == [] && s.shown.loading == {}
    && (task.Resolving? ==> ListsOk(task.definition, task.lists))
  }

  ghost predicate TaskOk(s: State, task: Task) {
    && task.revision <= s.revision
    && (task.revision == s.revision ==> if IsLoad(task) then LoadTaskOk(s, task) else SectionTaskOk(s.shown, task))
  }

  /** Two current calls: neither is a load, and they hold different locks. */
  ghost predicate Apart(a: Task, b: Task) {
    && !IsLoad(a) && !IsLoad(b)
    && a.owner.id != b.owner.id
    && (a.Paging? && b.Paging? ==> a.owner.blockId != b.owner.blockId)
  }

  ghost predicate TasksOk(s: State) {
    forall k | k in s.tasks :: TaskOk(s, s.tasks[k])
  }

  predicate IsCurrent(s: State, k: nat) {
    k in s.tasks && s.tasks[k].revision == s.revision
  }

  ghost predicate TasksApart(s: State) {
    forall k, l | IsCurrent(s, k) && IsCurrent(s, l) && k != l :: Apart(s.tasks[k], s.tasks[l])
  }

  ghost predicate Inv(s: State) {
    Placed(s) && PagesInOrder(s) && TasksOk(s) && TasksApart(s)
  }

  // --- Frames --------------------------------------------------------------

  /** No member left its block. */
  ghost predicate MembersStay(ms: seq<Member>, ns: seq<Member>) {
    forall owner: Owner | Stands(ms, owner) :: Stands(ns, owner)
  }

  lemma SameMembersStay(ms: seq<Member>, ns: seq<Member>)
    requires |ms| == |ns| && forall i | 0 <= i < |ms| :: ns[i].id == ms[i].id && ns[i].blockId == ms[i].blockId
    ensures MembersStay(ms, ns)
  {
    forall owner: Owner | Stands(ms, owner) ensures Stands(ns, owner) {
      var i :| 0 <= i < |ms| && ms[i].id == owner.id && ms[i].blockId == owner.blockId;
      assert ns[i].id == owner.id && ns[i].blockId == owner.blockId;
    }
  }

  /** A view a section call can live on in: its member stands, its locks are held, its category is untouched. */
  ghost predicate Carries(v: Shown, w: Shown, task: Task)
    requires !IsLoad(task)
  {
    && MembersStay(v.members, w.members)
    && (MemberLock(task.owner.id) in v.loading ==> MemberLock(task.owner.id) in w.loading)
    && (task.Paging? ==>
          && (CategoryLock(task.owner.blockId) in v.loading ==> CategoryLock(task.owner.blockId) in w.loading)
          && (task.owner.blockId in v.categories ==>
                task.owner.blockId in w.categories && w.categories[task.owner.blockId] == v.categories[task.owner.blockId]))
  }

  lemma CarriedOk(v: Shown, w: Shown, task: Task)
    requires !IsLoad(task) && SectionTaskOk(v, task) && Carries(v, w, task)
    ensures SectionTaskOk(w, task)
  {
    hide Stands;
  }

  /**
   One task `t` of the current revision moved on, to `s2.tasks[t]` or away, and
   the rest are carried. No load is current, as loads are alone.
   */
  ghost predicate MovedOn(s: State, s2: State, t: nat) {
    && s2.revision == s.revision && s2.definition == s.definition
    && (forall k | k in s2.tasks && k != t :: k in s.tasks && s2.tasks[k] == s.tasks[k])
    && (t in s2.tasks ==> s2.tasks[t].revision == s.revision && !IsLoad(s2.tasks[t]))
    && (forall k | IsCurrent(s, k) && k != t :: !IsLoad(s.tasks[k]) && Carries(s.shown, s2.shown, s.tasks[k]))
  }

  lemma MovedTasksOk(s: State, s2: State, t: nat)
    requires TasksOk(s) && MovedOn(s, s2, t) && (t in s2.tasks ==> SectionTaskOk(s2.shown, s2.tasks[t]))
    ensures TasksOk(s2)
  {
    hide SectionTaskOk, Carries, LoadTaskOk;
    forall k | k in s2.tasks && k != t ensures TaskOk(s2, s2.tasks[k]) {
      assert TaskOk(s, s.tasks[k]);
      if IsCurrent(s, k) {
        CarriedOk(s.shown, s2.shown, s.tasks[k]);
      }
    }
  }

  lemma MovedTasksApart(s: State, s2: State, t: nat)
    requires TasksApart(s) && MovedOn(s, s2, t)
    requires t in s2.tasks ==> forall k | IsCurrent(s, k) && k != t :: Apart(s.tasks[k], s2.tasks[t])
    ensures TasksApart(s2)
  {
    hide Carries;
    forall k, l | IsCurrent(s2, k) && IsCurrent(s2, l) && k != l ensures Apart(s2.tasks[k], s2.tasks[l]) {
      assert k != t ==> IsCurrent(s, k);
      assert l != t ==> IsCurrent(s, l);
      if k == t {
        assert Apart(s.tasks[l], s2.tasks[t]);
      } else if l == t {
        assert Apart(s.tasks[k], s2.tasks[t]);
      }
    }
  }

  /** The other current tasks are apart from a current one, so none of them is a load. */
  lemma OthersApart(s: State, t: nat)
    requires TasksApart(s) && IsCurrent(s, t)
    ensures forall k | IsCurrent(s, k) && k != t :: Apart(s.tasks[k], s.tasks[t])
  {
    hide Apart;
  }

  // --- Loads ---------------------------------------------------------------

  lemma LoadIsAlone(s: State, t: nat)
    requires TasksApart(s) && IsCurrent(s, t) && IsLoad(s.tasks[t])
    ensures forall k | IsCurrent(s, k) :: k == t
  {
    forall k | IsCurrent(s, k) ensures k == t {
      assert k != t ==> Apart(s.tasks[k], s.tasks[t]);
    }
  }

  /** After a restart no task is current but the new load. */
  lemma StartLoadKeeps(s: State, t: nat, input: Input)
    requires Inv(s) && Enabled(s, LoadCatalog(t, input))
    ensures Inv(StartLoad(s, t, input))
  {
    hide SectionTaskOk, WellPlaced, Distinct;
    var s2 := StartLoad(s, t, input);
    assert forall k | k in s.tasks :: TaskOk(s, s.tasks[k]) && s.tasks[k].revision < s2.revision;
    EmptyWellPlaced(if s2.definition.Some? then BlockIds(s2.definition.value) else []);
  }

  lemma EmptyWellPlaced(blocks: seq<string>)
    ensures WellPlaced([], blocks)
  {
  }

  lemma SectionMemberAlone(b: Block, section: Section)
    requires b.kind.SectionBlock?
    ensures BlockMembers(b.id, [SectionMember(b, section)])
  {
    var parts := [Str(b.kind.sectionKey), if b.kind.subsectionKey.Some? then Str(b.kind.subsectionKey.value) else Null];
    assert AllPlain(parts);
    hide MemberId, Captioned;
    assert SectionMember(b, section).id == MemberId(b.id, parts);
  }

  lemma FirstListsOk(ds: Discoveries, d: Definition)
    ensures ListsOk(d, FirstLists(ds, d.blocks))
  {
    hide SectionMember, ResolveSection, ResolvesBlock;
    forall i | 0 <= i < |d.blocks| && FirstList(ds, d.blocks[i]).Some?
      ensures BlockMembers(d.blocks[i].id, FirstList(ds, d.blocks[i]).value)
    {
      var b := d.blocks[i];
      if b.kind.SectionBlock? {
        var section := ResolveSection(ds, b.sourceId, b.kind.sectionKey, b.kind.subsectionKey);
        if section.Some? {
          SectionMemberAlone(b, section.value);
        }
      }
    }
  }

  /** Reports change nothing but the issues. */
  lemma {:induction false} BannerReports(v: Shown, ds: Discoveries, sources: seq<string>)
    ensures ReportBanners(v, ds, sources) == v.(issues := ReportBanners(v, ds, sources).issues)
  {
    if sources != [] {
      BannerReports(v, ds, sources[..|sources| - 1]);
    }
  }

  lemma {:induction false} ShortcutReports(v: Shown, ds: Discoveries, shortcuts: seq<Shortcut>, index: nat -> string)
    ensures ReportShortcuts(v, ds, shortcuts, index) == v.(issues := ReportShortcuts(v, ds, shortcuts, index).issues)
  {
    hide ResolvesCategory;
    if shortcuts != [] {
      ShortcutReports(v, ds, shortcuts[..|shortcuts| - 1], index);
    }
  }

  lemma {:induction false} BlockReports(v: Shown, ds: Discoveries, blocks: seq<Block>)
    ensures ReportBlocks(v, ds, blocks) == v.(issues := ReportBlocks(v, ds, blocks).issues)
  {
    hide ResolvesBlock;
    if blocks != [] {
      BlockReports(v, ds, blocks[..|blocks| - 1]);
    }
  }

  /** A current load moved on, to `s2.tasks[t]` or away; nothing else is current. */
  lemma LoadMovesOn(s: State, s2: State, t: nat)
    requires TasksOk(s) && TasksApart(s) && IsCurrent(s, t) && IsLoad(s.tasks[t]) && s2.revision == s.revision
    requires forall k | k in s2.tasks && k != t :: k in s.tasks && s2.tasks[k] == s.tasks[k]
    requires t in s2.tasks ==> TaskOk(s2, s2.tasks[t])
    ensures TasksOk(s2) && TasksApart(s2)
  {
    hide SectionTaskOk, LoadTaskOk;
    LoadIsAlone(s, t);
    forall k | k in s2.tasks && k != t ensures TaskOk(s2, s2.tasks[k]) && s2.tasks[k].revision != s2.revision {
      assert TaskOk(s, s.tasks[k]);
      assert !IsCurrent(s, k);
    }
  }

  lemma SourcesSettledKeeps(s: State, t: nat, ds: Discoveries, base: Base, index: nat -> string)
    requires Inv(s) && IsCurrent(s, t) && s.tasks[t].Discovering?
    ensures Inv(Discovered(s, t, ds, base, index))
  {
    hide WellPlaced, ListsOk, FirstLists, ReportBanners, ReportShortcuts, ReportBlocks, SectionTaskOk;
    var d := s.tasks[t].definition;
    assert TaskOk(s, s.tasks[t]);
    BannerReports(s.shown, ds, d.bannerSources);
    var banners := ReportBanners(s.shown, ds, d.bannerSources).(base := base);
    ShortcutReports(banners, ds, d.shortcuts, index);
    var shortcuts := ReportShortcuts(banners, ds, d.shortcuts, index);
    BlockReports(shortcuts, ds, d.blocks);
    FirstListsOk(ds, d);
    LoadMovesOn(s, Discovered(s, t, ds, base, index), t);
  }

  lemma ListFilled(d: Definition, lists: seq<Option<seq<Member>>>, i: nat, list: seq<Member>)
    requires ListsOk(d, lists) && i < |lists| && BlockMembers(d.blocks[i].id, list)
    ensures ListsOk(d, lists[i := Some(list)])
  {
    hide BlockMembers;
  }

  lemma NoMembers(blockId: string)
    ensures BlockMembers(blockId, [])
  {
  }

  lemma BlockSettledKeeps(s: State, t: nat, i: nat, result: Result<Page, string>)
    requires Inv(s) && AwaitsBlock(s, t, i) && IsCurrent(s, t)
    ensures Inv(BlockLoaded(s, t, i, result))
  {
    hide WellPlaced, ListsOk, BlockMembers, SectionTaskOk, Columns, Without, Report, CategoryGoesOn;
    var task := s.tasks[t];
    var b := task.definition.blocks[i];
    assert TaskOk(s, task);
    NoMembers(b.id);
    ListFilled(task.definition, task.lists, i, []);
    if result.Ok? && Columns(b.id, result.value, b.title).Some? {
      ColumnsSettled(b.id, result.value, b.title);
      ListFilled(task.definition, task.lists, i, Columns(b.id, result.value, b.title).value);
    }
    ReportKeeps(s.shown, "block:" + b.id, false);
    if result.Ok? {
      ReportKeeps(s.shown.(categories := s.shown.categories[b.id := CategoryState(1, CategoryGoesOn(result.value))]),
                  "block:" + b.id, false);
    }
    LoadMovesOn(s, BlockLoaded(s, t, i, result), t);
  }

  lemma ReportKeeps(v: Shown, id: string, repair: bool)
    ensures Report(v, id, repair) == v.(issues := Report(v, id, repair).issues)
  {
  }

  lemma ColumnsSettled(blockId: string, page: Page, title: Option<string>)
    requires Columns(blockId, page, title).Some?
    ensures BlockMembers(blockId, Columns(blockId, page, title).value)
  {
    hide BlockMembers;
    ColumnsAreMembers(blockId, page, title);
  }

  lemma PublishKeeps(v: Shown, definition: Option<Definition>)
    ensures Publish(v, definition) == v.(catalog := Publish(v, definition).catalog)
  {
  }

  lemma LoadSettledKeeps(s: State, t: nat)
    requires Inv(s) && BlocksSettled(s, t) && IsCurrent(s, t)
    ensures Inv(LoadDone(s, t))
  {
    hide WellPlaced, BlockMembers, SectionTaskOk, Publish, Flat;
    var task := s.tasks[t];
    assert TaskOk(s, task);
    var members := Flat(Values(task.lists));
    PublishKeeps(s.shown.(members := members), s.definition);
    FlatWellPlaced(BlockIds(task.definition), Values(task.lists));
    LoadMovesOn(s, LoadDone(s, t), t);
  }

  // --- Sections ------------------------------------------------------------

  /** If members exist, no load is current. */
  lemma NoLoadBesideMembers(s: State)
    requires TasksOk(s) && s.shown.members != []
    ensures forall k | IsCurrent(s, k) :: !IsLoad(s.tasks[k])
  {
    hide SectionTaskOk, ListsOk;
    forall k | IsCurrent(s, k) ensures !IsLoad(s.tasks[k]) {
      assert TaskOk(s, s.tasks[k]);
    }
  }

  lemma StandsIn(ms: seq<Member>, i: nat)
    requires i < |ms|
    ensures Stands(ms, Owner(ms[i].id, ms[i].blockId, ms[i].categoryPage))
  {
  }

  lemma Reflexive(ms: seq<Member>)
    ensures MembersStay(ms, ms)
  {
  }

  /** The view at the end of a call: its own lock and issue are gone, the rest is there. */
  lemma SettledView(s: State, t: nat, owner: Owner, ok: bool)
    ensures var v := Settle(s, t, owner, ok).shown;
            && v.members == s.shown.members && v.categories == s.shown.categories
            && v.loading == s.shown.loading - {MemberLock(owner.id)}
  {
    hide Without;
  }

  ghost predicate LockedBy(v: Shown, owner: Owner) {
    Stands(v.members, owner) && MemberLock(owner.id) in v.loading
  }

  /** The current calls other than `t`: none of them is a load or holds the lock of this member. */
  ghost predicate OthersOf(s: State, t: nat, owner: Owner) {
    forall k | IsCurrent(s, k) && k != t :: !IsLoad(s.tasks[k]) && s.tasks[k].owner.id != owner.id
  }

  lemma SettleKeeps(s: State, t: nat, owner: Owner, ok: bool)
    requires Inv(s) && OthersOf(s, t, owner)
    ensures Inv(Settle(s, t, owner, ok))
  {
    hide WellPlaced, SectionTaskOk, Settle, Apart, LoadTaskOk;
    var s2 := Settle(s, t, owner, ok);
    SettledView(s, t, owner, ok);
    SettledState(s, t, owner, ok);
    Reflexive(s.shown.members);
    hide MembersStay;
    MovedTasksOk(s, s2, t);
    MovedTasksApart(s, s2, t);
  }

  lemma SettledState(s: State, t: nat, owner: Owner, ok: bool)
    ensures var s2 := Settle(s, t, owner, ok);
            s2.revision == s.revision && s2.definition == s.definition && s2.tasks == s.tasks - {t} && s2.consumed == s.consumed
  {
    hide Without, Publish, Report;
  }

  /** Task `t` becomes a call in this view that is fine and apart from the others. */
  lemma TaskMovesOn(s: State, t: nat, shown: Shown, task: Task)
    requires Inv(s) && task.revision == s.revision && !IsLoad(task)
    requires Placed(s.(shown := shown)) && PagesInOrder(s.(shown := shown))
    requires SectionTaskOk(shown, task)
    requires forall k | IsCurrent(s, k) && k != t ::
               !IsLoad(s.tasks[k]) && Carries(s.shown, shown, s.tasks[k]) && Apart(s.tasks[k], task)
    ensures Inv(s.(shown := shown, tasks := s.tasks[t := task]))
  {
    hide WellPlaced, SectionTaskOk, Carries, Apart, LoadTaskOk, PagesUpTo;
    var s2 := s.(shown := shown, tasks := s.tasks[t := task]);
    MovedTasksOk(s, s2, t);
    MovedTasksApart(s, s2, t);
  }

  lemma ApartByOwner(a: Task, b: Task)
    requires !IsLoad(a) && !IsLoad(b) && a.owner.id != b.owner.id && !b.Paging?
    ensures Apart(a, b)
  {
  }

  /** A call whose lock is free for its category is the only one paging it. */
  lemma NobodyPages(s: State, t: nat, blockId: string)
    requires TasksOk(s) && CategoryLock(blockId) !in s.shown.loading
    ensures forall k | IsCurrent(s, k) && s.tasks[k].Paging? :: s.tasks[k].owner.blockId != blockId
  {
    hide Stands, LoadTaskOk;
    forall k | IsCurrent(s, k) && s.tasks[k].Paging? ensures s.tasks[k].owner.blockId != blockId {
      assert TaskOk(s, s.tasks[k]);
    }
  }

  lemma MoreLocksCarry(v: Shown, task: Task, locks: set<Lock>)
    requires !IsLoad(task)
    ensures Carries(v, v.(loading := v.loading + locks), task)
  {
    Reflexive(v.members);
    hide MembersStay;
  }

  lemma AfterPagesKeeps(s: State, t: nat, owner: Owner, initial: bool)
    requires Inv(s) && OthersOf(s, t, owner) && LockedBy(s.shown, owner)
    ensures Inv(AfterPages(s, t, owner, initial))
  {
    hide WellPlaced, Stands, Settle, Carries, LoadTaskOk, PagesUpTo;
    var b, v := owner.blockId, s.shown;
    if !initial && owner.categoryPage && b in v.categories && v.categories[b].haveMore {
      forall k | IsCurrent(s, k) && k != t ensures Carries(v, v.(loading := v.loading + {CategoryLock(b)}), s.tasks[k])
                                                   && Carries(v, v.(loading := v.loading + {}), s.tasks[k]) {
        MoreLocksCarry(v, s.tasks[k], {CategoryLock(b)});
        MoreLocksCarry(v, s.tasks[k], {});
      }
      assert v.loading + {} == v.loading;
      if CategoryLock(b) in v.loading {
        TaskMovesOn(s, t, v, Finishing(s.revision, owner, true));
      } else {
        NobodyPages(s, t, b);
        TaskMovesOn(s, t, v.(loading := v.loading + {CategoryLock(b)}), Paging(s.revision, owner, v.categories[b]));
      }
    } else {
      SettleKeeps(s, t, owner, true);
    }
  }

  /** A free member lock means that no current call owns the member. */
  lemma NobodyOwns(s: State, id: string)
    requires TasksOk(s) && MemberLock(id) !in s.shown.loading
    ensures forall k | IsCurrent(s, k) && !IsLoad(s.tasks[k]) :: s.tasks[k].owner.id != id
  {
    hide Stands, LoadTaskOk;
    forall k | IsCurrent(s, k) && !IsLoad(s.tasks[k]) ensures s.tasks[k].owner.id != id {
      assert TaskOk(s, s.tasks[k]);
    }
  }

  /** Taking a free lock disturbs nobody. */
  lemma LockKeeps(s: State, lock: Lock)
    requires Inv(s) && s.shown.members != []
    ensures Inv(s.(shown := s.shown.(loading := s.shown.loading + {lock})))
  {
    hide WellPlaced, Stands, Apart, PagesUpTo;
    var s2 := s.(shown := s.shown.(loading := s.shown.loading + {lock}));
    NoLoadBesideMembers(s);
    forall k | k in s2.tasks ensures TaskOk(s2, s2.tasks[k]) {
      assert TaskOk(s, s.tasks[k]);
      if IsCurrent(s, k) {
        MoreLocksCarry(s.shown, s.tasks[k], {lock});
        CarriedOk(s.shown, s2.shown, s.tasks[k]);
      }
    }
    assert forall k :: IsCurrent(s2, k) <==> IsCurrent(s, k);
  }

  lemma LoadSectionKeeps(s: State, t: nat, i: nat, initial: bool)
    requires Inv(s) && Enabled(s, LoadSection(t, i, initial))
    ensures Inv(StartSection(s, t, i, initial))
  {
    hide Inv, AfterPages, WantedSources, Carries;
    var m := s.shown.members[i];
    var owner := Owner(m.id, m.blockId, m.categoryPage);
    if MemberLock(m.id) !in s.shown.loading {
      var locked := s.(shown := s.shown.(loading := s.shown.loading + {MemberLock(m.id)}));
      LockKeeps(s, MemberLock(m.id));
      FreshOwner(s, t, i);
      StandsIn(s.shown.members, i);
      var sources := WantedSources(m.section.sources, initial);
      if sources == [] {
        AfterPagesKeeps(locked, t, owner, initial);
      } else {
        FetchStarts(locked, t, Fetching(s.revision, owner, initial, m.section, sources, false));
      }
    }
  }

  lemma FreshOwner(s: State, t: nat, i: nat)
    requires Inv(s) && i < |s.shown.members| && MemberLock(s.shown.members[i].id) !in s.shown.loading
    ensures var m := s.shown.members[i];
            OthersOf(s.(shown := s.shown.(loading := s.shown.loading + {MemberLock(m.id)})), t, Owner(m.id, m.blockId, m.categoryPage))
  {
    hide SectionTaskOk, LoadTaskOk;
    NoLoadBesideMembers(s);
    NobodyOwns(s, s.shown.members[i].id);
    var locked := s.(shown := s.shown.(loading := s.shown.loading + {MemberLock(s.shown.members[i].id)}));
    assert forall k :: IsCurrent(locked, k) <==> IsCurrent(s, k);
  }

  lemma FetchStarts(s: State, t: nat, task: Task)
    requires Inv(s) && task.Fetching? && task.queue != [] && task.revision == s.revision
    requires OthersOf(s, t, task.owner) && LockedBy(s.shown, task.owner)
    ensures Inv(s.(tasks := s.tasks[t := task]))
  {
    hide WellPlaced, Stands, Carries, LoadTaskOk, PagesUpTo;
    var v := s.shown;
    forall k | IsCurrent(s, k) && k != t ensures Carries(v, v, s.tasks[k]) && Apart(s.tasks[k], task) {
      MoreLocksCarry(v, s.tasks[k], {});
      assert v.loading + {} == v.loading;
      ApartByOwner(s.tasks[k], task);
    }
    TaskMovesOn(s, t, v, task);
  }

  // --- Source pages --------------------------------------------------------

  lemma WriteBackWellPlaced(ms: seq<Member>, blocks: seq<string>, id: string, section: Section)
    requires WellPlaced(ms, blocks)
    ensures WellPlaced(WriteBack(ms, id, section), blocks)
  {
    hide MemberId, Rank;
    var ns := WriteBack(ms, id, section);
    assert forall i | 0 <= i < |ms| :: ns[i].id == ms[i].id && ns[i].blockId == ms[i].blockId;
    forall i | 0 <= i < |ms| ensures OwnId(ns[i]) {
      var parts :| AllPlain(parts) && ms[i].id == MemberId(ms[i].blockId, parts);
      assert ns[i].id == MemberId(ns[i].blockId, parts);
    }
  }

  /** Writing a section back and publishing keeps everything the other calls rely on. */
  lemma WriteBackKeeps(s: State, id: string, section: Section)
    requires Inv(s) && s.shown.members != []
    ensures Inv(s.(shown := Publish(s.shown.(members := WriteBack(s.shown.members, id, section)), s.definition)))
  {
    hide WellPlaced, Stands, Publish, Apart, PagesUpTo, SectionTaskOk, LoadTaskOk;
    var ms := WriteBack(s.shown.members, id, section);
    var v := Publish(s.shown.(members := ms), s.definition);
    var s2 := s.(shown := v);
    PublishKeeps(s.shown.(members := ms), s.definition);
    WriteBackWellPlaced(s.shown.members, BlockIds(s.definition.value), id, section);
    SameMembersStay(s.shown.members, ms);
    NoLoadBesideMembers(s);
    hide MembersStay;
    forall k | k in s2.tasks ensures TaskOk(s2, s2.tasks[k]) {
      assert TaskOk(s, s.tasks[k]);
      if IsCurrent(s, k) {
        CarriedOk(s.shown, v, s.tasks[k]);
      }
    }
    assert forall k :: IsCurrent(s2, k) <==> IsCurrent(s, k);
  }

  lemma NextSourceKeeps(s: State, t: nat, task: Task)
    requires Inv(s) && task.Fetching? && task.revision == s.revision
    requires OthersOf(s, t, task.owner) && LockedBy(s.shown, task.owner)
    ensures Inv(NextSource(s, t, task))
  {
    hide Inv, Settle, AfterPages, OthersOf, LockedBy;
    if task.queue != [] {
      FetchStarts(s, t, task);
    } else if task.failed {
      SettleKeeps(s, t, task.owner, false);
    } else {
      AfterPagesKeeps(s, t, task.owner, task.initial);
    }
  }

  /** What a current section call knows: its member stands, its lock is held, and nobody else has it. */
  lemma OwnerKnows(s: State, t: nat)
    requires Inv(s) && IsCurrent(s, t) && !IsLoad(s.tasks[t])
    ensures LockedBy(s.shown, s.tasks[t].owner) && OthersOf(s, t, s.tasks[t].owner) && s.shown.members != []
    ensures s.definition.Some?
    ensures s.tasks[t].Paging? ==> SectionTaskOk(s.shown, s.tasks[t])
  {
    hide WellPlaced, PagesUpTo, LoadTaskOk;
    assert TaskOk(s, s.tasks[t]);
    OthersApart(s, t);
  }

  lemma SourceSettledKeeps(s: State, t: nat, result: Result<SourcePage, string>, dedupe: Dedupe)
    requires Inv(s) && Enabled(s, SourceSettled(t, result, dedupe)) && IsCurrent(s, t)
    ensures Inv(SectionResponse(s, t, result, dedupe))
  {
    hide Inv, NextSource, Publish, Advanced, WriteBack;
    var task := s.tasks[t];
    OwnerKnows(s, t);
    match result {
      case Err(_) => NextSourceKeeps(s, t, task.(queue := task.queue[1..], failed := true));
      case Ok(page) =>
        var next := Advanced(task.next, task.queue[0], page, dedupe);
        var s2 := s.(shown := Publish(s.shown.(members := WriteBack(s.shown.members, task.owner.id, next)), s.definition));
        WriteBackKeeps(s, task.owner.id, next);
        OwnerStillKnows(s, t, task.owner, next);
        NextSourceKeeps(s2, t, task.(next := next, queue := task.queue[1..]));
    }
  }

  lemma OwnerStillKnows(s: State, t: nat, owner: Owner, section: Section)
    requires OthersOf(s, t, owner) && LockedBy(s.shown, owner)
    ensures var s2 := s.(shown := Publish(s.shown.(members := WriteBack(s.shown.members, owner.id, section)), s.definition));
            OthersOf(s2, t, owner) && LockedBy(s2.shown, owner)
  {
    hide Stands;
    var ms := WriteBack(s.shown.members, owner.id, section);
    SameMembersStay(s.shown.members, ms);
    var s2 := s.(shown := Publish(s.shown.(members := ms), s.definition));
    assert forall k :: IsCurrent(s2, k) <==> IsCurrent(s, k);
  }

  // --- Category pages ------------------------------------------------------

  lemma StandsInBlock(ms: seq<Member>, owner: Owner)
    requires Stands(ms, owner)
    ensures HasBlock(ms, owner.blockId)
  {
  }

  /** A merge leaves every member in its block. */
  lemma MergeStays(ms: seq<Member>, blockId: string, next: seq<Member>, dedupe: Dedupe)
    requires BlockMembers(blockId, next)
    ensures MembersStay(ms, MergePage(ms, blockId, next, dedupe))
  {
    hide MergeMember, Additions, LastIndex, BlockMembers;
    var updated := Updated(ms, blockId, next, dedupe);
    var k := LastIndex(updated, blockId) + 1;
    var more := Additions(updated, next);
    var merged := MergePage(ms, blockId, next, dedupe);
    forall i | 0 <= i < |ms| ensures updated[i].id == ms[i].id && updated[i].blockId == ms[i].blockId {
      UpdatedKeepsIds(ms, blockId, next, dedupe, i);
    }
    forall owner: Owner | Stands(ms, owner) ensures Stands(merged, owner) {
      var i :| 0 <= i < |ms| && ms[i].id == owner.id && ms[i].blockId == owner.blockId;
      var j := if i < k then i else i + |more|;
      assert merged[j] == updated[i];
    }
  }

  lemma PagedMembers(v: Shown, definition: Option<Definition>, task: Task, result: Result<Page, string>, dedupe: Dedupe,
                     blocks: seq<string>)
    requires task.Paging? && Stands(v.members, task.owner) && WellPlaced(v.members, blocks)
    ensures var w := PagedView(v, definition, task, result, dedupe);
            WellPlaced(w.members, blocks) && MembersStay(v.members, w.members)
  {
    hide WellPlaced, MembersStay, Columns, MergePage, TitleOf, CategoryGoesOn, BlockMembers, Stands, HasBlock;
    var b := task.owner.blockId;
    var columns := PageColumns(definition, task, result);
    StaysItself(v.members);
    if columns.Some? {
      ColumnsSettled(b, result.value, TitleOf(definition, b));
      StandsInBlock(v.members, task.owner);
      MergeWellPlaced(v.members, blocks, b, columns.value, dedupe);
      MergeStays(v.members, b, columns.value, dedupe);
    }
  }

  lemma StaysItself(ms: seq<Member>)
    ensures MembersStay(ms, ms)
  {
    Reflexive(ms);
  }

  lemma PagedCarries(v: Shown, definition: Option<Definition>, task: Task, result: Result<Page, string>, dedupe: Dedupe, other: Task)
    requires task.Paging? && Apart(other, task) && MembersStay(v.members, PagedView(v, definition, task, result, dedupe).members)
    ensures Carries(v, PagedView(v, definition, task, result, dedupe), other)
  {
    hide MembersStay, Columns, MergePage, TitleOf, CategoryGoesOn;
  }

  lemma CategoryResponseIs(s: State, t: nat, result: Result<Page, string>, dedupe: Dedupe) returns (ok: bool)
    requires IsCurrent(s, t) && s.tasks[t].Paging?
    ensures CategoryResponse(s, t, result, dedupe)
            == s.(shown := PagedView(s.shown, s.definition, s.tasks[t], result, dedupe),
                  tasks := s.tasks[t := Finishing(s.revision, s.tasks[t].owner, ok)],
                  consumed := PagedLog(s.consumed, s.definition, s.tasks[t], result))
  {
    hide PagedView, PagedLog, PageColumns;
    ok := PageColumns(s.definition, s.tasks[t], result).Some?;
  }

  /** The next page is the one after those already taken. */
  lemma PagedInOrder(s: State, task: Task, result: Result<Page, string>, dedupe: Dedupe)
    requires PagesInOrder(s) && task.Paging? && SectionTaskOk(s.shown, task)
    ensures PagesInOrder(s.(shown := PagedView(s.shown, s.definition, task, result, dedupe),
                            consumed := PagedLog(s.consumed, s.definition, task, result)))
  {
    hide Columns, MergePage, TitleOf, CategoryGoesOn, Stands;
  }

  lemma PagedOwner(v: Shown, definition: Option<Definition>, task: Task, result: Result<Page, string>, dedupe: Dedupe,
                   revision: nat, ok: bool)
    requires task.Paging? && SectionTaskOk(v, task) && MembersStay(v.members, PagedView(v, definition, task, result, dedupe).members)
    ensures SectionTaskOk(PagedView(v, definition, task, result, dedupe), Finishing(revision, task.owner, ok))
  {
    hide Columns, MergePage, TitleOf, CategoryGoesOn, Stands;
  }

  lemma CategorySettledKeeps(s: State, t: nat, result: Result<Page, string>, dedupe: Dedupe)
    requires Inv(s) && IsCurrent(s, t) && s.tasks[t].Paging?
    ensures Inv(CategoryResponse(s, t, result, dedupe))
  {
    hide CategoryResponse, PagedView, PagedLog, WellPlaced, Stands, SectionTaskOk, LoadTaskOk, MembersStay, Carries, PagesUpTo;
    var task := s.tasks[t];
    var ok := CategoryResponseIs(s, t, result, dedupe);
    OwnerKnows(s, t);
    OwnerStands(s.shown, task);
    var w := PagedView(s.shown, s.definition, task, result, dedupe);
    PagedMembers(s.shown, s.definition, task, result, dedupe, BlockIds(s.definition.value));
    PagedInOrder(s, task, result, dedupe);
    PagedOwner(s.shown, s.definition, task, result, dedupe, s.revision, ok);
    OthersApart(s, t);
    forall k | IsCurrent(s, k) && k != t
      ensures Carries(s.shown, w, s.tasks[k]) && Apart(s.tasks[k], Finishing(s.revision, task.owner, ok))
    {
      PagedCarries(s.shown, s.definition, task, result, dedupe, s.tasks[k]);
      ApartByOwner(s.tasks[k], Finishing(s.revision, task.owner, ok));
    }
    var s2 := CategoryResponse(s, t, result, dedupe);
    MovedTasksOk(s, s2, t);
    MovedTasksApart(s, s2, t);
  }

  lemma OwnerStands(v: Shown, task: Task)
    requires !IsLoad(task) && SectionTaskOk(v, task)
    ensures Stands(v.members, task.owner)
  {
  }

  // --- Runs ----------------------------------------------------------------

  lemma BannersKeep(s: State, revision: nat, source: string, base: Option<Base>)
    requires Inv(s)
    ensures Inv(BannersLoaded(s, revision, source, base))
  {
    hide WellPlaced, Stands, Apart, PagesUpTo, ListsOk, Without;
    ViewKeeps(s, BannersLoaded(s, revision, source, base).shown);
  }

  /** Issues, base and catalog take no part in the invariant. */
  lemma ViewKeeps(s: State, v: Shown)
    requires Inv(s) && v.members == s.shown.members && v.loading == s.shown.loading && v.categories == s.shown.categories
    ensures Inv(s.(shown := v))
  {
    hide WellPlaced, Stands, Apart, PagesUpTo, ListsOk;
    var s2 := s.(shown := v);
    forall k | k in s2.tasks ensures TaskOk(s2, s2.tasks[k]) {
      assert TaskOk(s, s.tasks[k]);
    }
    assert forall k :: IsCurrent(s2, k) <==> IsCurrent(s, k);
  }

  lemma DisposeKeeps(s: State)
    requires Inv(s)
    ensures Inv(s.(revision := s.revision + 1))
  {
    hide WellPlaced, SectionTaskOk, LoadTaskOk, PagesUpTo;
    var s2 := s.(revision := s.revision + 1);
    forall k | k in s2.tasks ensures TaskOk(s2, s2.tasks[k]) && !IsCurrent(s2, k) {
      assert TaskOk(s, s.tasks[k]);
    }
  }

  lemma StaleKeeps(s: State, step: Step)
    requires Inv(s) && Enabled(s, step) && IsStale(s, step)
    ensures Inv(Apply(s, step))
  {
    hide Inv, Apply;
    StaleStepsAreInert(s, step);
    StaleTasks(s, step);
    FewerTasks(s, Apply(s, step).tasks);
  }

  /** What a stale step leaves of its own task is as stale as before. */
  lemma StaleTasks(s: State, step: Step)
    requires Enabled(s, step) && IsStale(s, step)
    ensures forall k | k in Apply(s, step).tasks ::
              k in s.tasks && s.tasks[k].revision == Apply(s, step).tasks[k].revision
              && (s.tasks[k].revision == s.revision ==> s.tasks[k] == Apply(s, step).tasks[k])
  {
  }

  lemma FewerTasks(s: State, tasks: map<nat, Task>)
    requires Inv(s)
    requires forall k | k in tasks ::
               k in s.tasks && s.tasks[k].revision == tasks[k].revision && (s.tasks[k].revision == s.revision ==> s.tasks[k] == tasks[k])
    ensures Inv(s.(tasks := tasks))
  {
    hide WellPlaced, SectionTaskOk, LoadTaskOk, PagesUpTo, Apart;
    var s2 := s.(tasks := tasks);
    forall k | k in s2.tasks ensures TaskOk(s2, s2.tasks[k]) {
      assert TaskOk(s, s.tasks[k]);
      LoadOkSame(s, s2, s.tasks[k]);
    }
    assert forall k | IsCurrent(s2, k) :: IsCurrent(s, k) && s2.tasks[k] == s.tasks[k];
  }

  lemma LoadOkSame(s: State, s2: State, task: Task)
    requires s2.definition == s.definition && s2.shown == s.shown
    ensures IsLoad(task) ==> (LoadTaskOk(s, task) <==> LoadTaskOk(s2, task))
  {
    hide ListsOk;
  }

  lemma CurrentKeeps(s: State, step: Step)
    requires Inv(s) && Enabled(s, step) && !IsStale(s, step)
    ensures Inv(Apply(s, step))
  {
    hide Inv, StartLoad, Discovered, BlockLoaded, LoadDone, StartSection, SectionResponse, CategoryResponse, FinishSection, BannersLoaded, Report;
    match step {
      case LoadCatalog(t, input) => StartLoadKeeps(s, t, input);
      case SourceFailed(t, source) =>
        ReportKeeps(s.shown, "source:" + source, false);
        ViewKeeps(s, Report(s.shown, "source:" + source, false));
      case SourcesSettled(t, ds, base, index) => SourcesSettledKeeps(s, t, ds, base, index);
      case BlockSettled(t, i, page) => BlockSettledKeeps(s, t, i, page);
      case LoadSettled(t) => LoadSettledKeeps(s, t);
      case LoadSection(t, i, initial) => LoadSectionKeeps(s, t, i, initial);
      case SourceSettled(t, page, dedupe) => SourceSettledKeeps(s, t, page, dedupe);
      case CategorySettled(t, page, dedupe) => CategorySettledKeeps(s, t, page, dedupe);
      case SectionSettled(t) => SectionSettledKeeps(s, t);
      case BannersSettled(revision, source, base) => BannersKeep(s, revision, source, base);
      case Dispose => DisposeKeeps(s);
    }
  }

  lemma SectionSettledKeeps(s: State, t: nat)
    requires Inv(s) && IsCurrent(s, t) && s.tasks[t].Finishing?
    ensures Inv(FinishSection(s, t))
  {
    hide Inv, Settle;
    OwnerKnows(s, t);
    SettleKeeps(s, t, s.tasks[t].owner, s.tasks[t].ok);
  }

  lemma StepKeeps(s: State, step: Step)
    requires Inv(s) && Enabled(s, step)
    ensures Inv(Apply(s, step))
  {
    hide Inv, Apply, IsStale, Enabled;
    if IsStale(s, step) {
      StaleKeeps(s, step);
    } else {
      CurrentKeeps(s, step);
    }
  }

  lemma {:induction false} RunKeeps(s: State, steps: seq<Step>, t: State)
    requires Inv(s) && Run(s, steps, t)
    ensures Inv(t)
    decreases |steps|
  {
    hide Inv, Apply, Enabled;
    if steps != [] {
      StepKeeps(s, steps[0]);
      RunKeeps(Apply(s, steps[0]), steps[1..], t);
    }
  }

  /**
   In every interleaving of loads, responses, failures and restarts: member ids
   are unique, blocks stand in definition order, and each block is one stretch.
   */
  lemma MembersStayInPlace(steps: seq<Step>, t: State)
    requires Run(INITIAL, steps, t) && t.definition.Some?
    ensures UniqueIds(t.shown.members) && Ordered(t.shown.members, BlockIds(t.definition.value))
    ensures forall i, j, k | 0 <= i < j < k < |t.shown.members| && t.shown.members[i].blockId == t.shown.members[k].blockId ::
              t.shown.members[j].blockId == t.shown.members[i].blockId
  {
    hide TasksOk, TasksApart, PagesInOrder, AllOwn, Ordered, UniqueIds, Run;
    InitialInv();
    RunKeeps(INITIAL, steps, t);
    var ms, blocks := t.shown.members, BlockIds(t.definition.value);
    forall i, j, k | 0 <= i < j < k < |ms| && ms[i].blockId == ms[k].blockId ensures ms[j].blockId == ms[i].blockId {
      BlocksAreContiguous(ms, blocks, i, j, k);
    }
  }

  lemma InitialInv()
    ensures Inv(INITIAL)
  {
  }

  /** Within a revision each category has taken over pages 1, 2, 3 and so on, in order and once each. */
  lemma CategoriesTakePagesInOrder(steps: seq<Step>, t: State, blockId: string)
    requires Run(INITIAL, steps, t) && blockId in t.shown.categories
    ensures blockId in t.consumed && PagesUpTo(t.consumed[blockId], t.shown.categories[blockId].page)
  {
    hide TasksOk, TasksApart, Placed, Run;
    InitialInv();
    RunKeeps(INITIAL, steps, t);
  }

  /** At most one call at a time loads a member, and at most one pages a category. */
  lemma LocksExclude(steps: seq<Step>, t: State, k: nat, l: nat)
    requires Run(INITIAL, steps, t) && IsCurrent(t, k) && IsCurrent(t, l) && k != l
    ensures !IsLoad(t.tasks[k]) && !IsLoad(t.tasks[l]) && t.tasks[k].owner.id != t.tasks[l].owner.id
    ensures t.tasks[k].Paging? && t.tasks[l].Paging? ==> t.tasks[k].owner.blockId != t.tasks[l].owner.blockId
  {
    hide TasksOk, Placed, PagesInOrder, Run;
    InitialInv();
    RunKeeps(INITIAL, steps, t);
    assert Apart(t.tasks[k], t.tasks[l]);
  }

  // --- No lock is leaked ---------------------------------------------------

  predicate Holds(task: Task, lock: Lock) {
    && !IsLoad(task)
    && (lock == MemberLock(task.owner.id) || (task.Paging? && lock == CategoryLock(task.owner.blockId)))
  }

  predicate HeldBy(s: State, k: nat, lock: Lock) {
    IsCurrent(s, k) && Holds(s.tasks[k], lock)
  }

  /** Every lock taken is held by a current call. */
  ghost predicate AllHeld(s: State) {
    forall lock | lock in s.shown.loading :: exists k: nat :: HeldBy(s, k, lock)
  }

  /** Only task `t` moved; every lock left is one it holds now, or one that another call held before. */
  lemma HeldMovesOn(s: State, s2: State, t: nat)
    requires AllHeld(s) && s2.revision == s.revision
    requires forall k | IsCurrent(s, k) && k != t :: k in s2.tasks && s2.tasks[k] == s.tasks[k]
    requires forall lock | lock in s2.shown.loading :: HeldBy(s2, t, lock) || (lock in s.shown.loading && !HeldBy(s, t, lock))
    ensures AllHeld(s2)
  {
    hide Holds;
    forall lock | lock in s2.shown.loading ensures exists k: nat :: HeldBy(s2, k, lock) {
      if !HeldBy(s2, t, lock) {
        var k: nat :| HeldBy(s, k, lock);
        assert HeldBy(s2, k, lock);
      }
    }
  }

  lemma SettleHeld(s: State, t: nat, owner: Owner, ok: bool)
    requires AllHeld(s) && (IsCurrent(s, t) ==> !IsLoad(s.tasks[t]) && !s.tasks[t].Paging? && s.tasks[t].owner == owner)
    ensures AllHeld(Settle(s, t, owner, ok))
  {
    hide Settle;
    SettledView(s, t, owner, ok);
    SettledState(s, t, owner, ok);
    HeldMovesOn(s, Settle(s, t, owner, ok), t);
  }

  /** All locks but that of the member whose call is on its way to or from a suspension. */
  ghost predicate HeldExcept(s: State, t: nat, owner: Owner) {
    && (forall lock | lock in s.shown.loading && lock != MemberLock(owner.id) :: exists k: nat :: k != t && HeldBy(s, k, lock))
  }

  lemma HeldAgain(s: State, s2: State, t: nat, owner: Owner)
    requires HeldExcept(s, t, owner) && s2.revision == s.revision
    requires forall k | IsCurrent(s, k) && k != t :: k in s2.tasks && s2.tasks[k] == s.tasks[k]
    requires forall lock | lock in s2.shown.loading ::
               HeldBy(s2, t, lock) || (lock in s.shown.loading && lock != MemberLock(owner.id))
    ensures AllHeld(s2)
  {
    hide Holds;
    forall lock | lock in s2.shown.loading ensures exists k: nat :: HeldBy(s2, k, lock) {
      if !HeldBy(s2, t, lock) {
        var k: nat :| k != t && HeldBy(s, k, lock);
        assert HeldBy(s2, k, lock);
      }
    }
  }

  lemma AfterPagesHeld(s: State, t: nat, owner: Owner, initial: bool)
    requires HeldExcept(s, t, owner)
    ensures AllHeld(AfterPages(s, t, owner, initial))
  {
    hide Settle;
    SettledView(s, t, owner, true);
    SettledState(s, t, owner, true);
    HeldAgain(s, AfterPages(s, t, owner, initial), t, owner);
  }

  lemma NextSourceHeld(s: State, t: nat, task: Task)
    requires task.Fetching? && HeldExcept(s, t, task.owner) && task.revision == s.revision
    ensures AllHeld(NextSource(s, t, task))
  {
    hide Settle, AfterPages;
    SettledView(s, t, task.owner, false);
    SettledState(s, t, task.owner, false);
    if task.queue == [] && !task.failed {
      AfterPagesHeld(s, t, task.owner, task.initial);
    } else {
      HeldAgain(s, NextSource(s, t, task), t, task.owner);
    }
  }

  /** A fetching call holds the lock of its member and nothing else. */
  lemma FetchHolds(s: State, t: nat)
    requires AllHeld(s) && IsCurrent(s, t) && s.tasks[t].Fetching?
    ensures HeldExcept(s, t, s.tasks[t].owner)
  {
    forall lock | lock in s.shown.loading && lock != MemberLock(s.tasks[t].owner.id)
      ensures exists k: nat :: k != t && HeldBy(s, k, lock)
    {
      var k: nat :| HeldBy(s, k, lock);
      assert k != t;
    }
  }

  lemma LoadSectionHeld(s: State, t: nat, i: nat, initial: bool)
    requires AllHeld(s) && Enabled(s, LoadSection(t, i, initial))
    ensures AllHeld(StartSection(s, t, i, initial))
  {
    hide AfterPages, WantedSources, Holds;
    var m := s.shown.members[i];
    var owner := Owner(m.id, m.blockId, m.categoryPage);
    if MemberLock(m.id) !in s.shown.loading {
      var locked := s.(shown := s.shown.(loading := s.shown.loading + {MemberLock(m.id)}));
      forall lock | lock in locked.shown.loading && lock != MemberLock(owner.id)
        ensures exists k: nat :: k != t && HeldBy(locked, k, lock)
      {
        var k: nat :| HeldBy(s, k, lock);
        assert k != t && HeldBy(locked, k, lock);
      }
      var sources := WantedSources(m.section.sources, initial);
      if sources == [] {
        AfterPagesHeld(locked, t, owner, initial);
      } else {
        FetchHeld(locked, t, Fetching(s.revision, owner, initial, m.section, sources, false));
      }
    }
  }

  lemma FetchHeld(s: State, t: nat, task: Task)
    requires task.Fetching? && HeldExcept(s, t, task.owner) && task.revision == s.revision
    ensures AllHeld(s.(tasks := s.tasks[t := task]))
  {
    HeldAgain(s, s.(tasks := s.tasks[t := task]), t, task.owner);
  }

  lemma SourceSettledHeld(s: State, t: nat, result: Result<SourcePage, string>, dedupe: Dedupe)
    requires AllHeld(s) && Enabled(s, SourceSettled(t, result, dedupe)) && IsCurrent(s, t)
    ensures AllHeld(SectionResponse(s, t, result, dedupe))
  {
    hide NextSource, Publish, Advanced, WriteBack, Holds;
    var task := s.tasks[t];
    FetchHolds(s, t);
    match result {
      case Err(_) => NextSourceHeld(s, t, task.(queue := task.queue[1..], failed := true));
      case Ok(page) =>
        var next := Advanced(task.next, task.queue[0], page, dedupe);
        var v := s.shown.(members := WriteBack(s.shown.members, task.owner.id, next));
        PublishKeeps(v, s.definition);
        SameLocks(s, Publish(v, s.definition), t, task.owner);
        NextSourceHeld(s.(shown := Publish(v, s.definition)), t, task.(next := next, queue := task.queue[1..]));
    }
  }

  lemma SameLocks(s: State, v: Shown, t: nat, owner: Owner)
    requires HeldExcept(s, t, owner) && v.loading == s.shown.loading
    ensures HeldExcept(s.(shown := v), t, owner)
  {
    hide Holds;
    var s2 := s.(shown := v);
    forall lock | lock in v.loading && lock != MemberLock(owner.id) ensures exists k: nat :: k != t && HeldBy(s2, k, lock) {
      var k: nat :| k != t && HeldBy(s, k, lock);
      assert HeldBy(s2, k, lock);
    }
  }

  lemma CategorySettledHeld(s: State, t: nat, result: Result<Page, string>, dedupe: Dedupe)
    requires AllHeld(s) && IsCurrent(s, t) && s.tasks[t].Paging?
    ensures AllHeld(CategoryResponse(s, t, result, dedupe))
  {
    hide PagedLog, PageColumns, MergePage, CategoryGoesOn;
    HeldMovesOn(s, CategoryResponse(s, t, result, dedupe), t);
  }

  /** Steps that take and release no lock. */
  lemma LocksUntouched(s: State, s2: State)
    requires AllHeld(s) && s2.revision == s.revision && s2.shown.loading <= s.shown.loading
    requires forall k | IsCurrent(s, k) && !IsLoad(s.tasks[k]) :: k in s2.tasks && s2.tasks[k] == s.tasks[k]
    ensures AllHeld(s2)
  {
    forall lock | lock in s2.shown.loading ensures exists k: nat :: HeldBy(s2, k, lock) {
      var k: nat :| HeldBy(s, k, lock);
      assert HeldBy(s2, k, lock);
    }
  }

  lemma DiscoveredLocks(s: State, t: nat, ds: Discoveries, base: Base, index: nat -> string)
    requires AllHeld(s) && t in s.tasks && s.tasks[t].Discovering?
    ensures AllHeld(Discovered(s, t, ds, base, index))
  {
    hide ReportBanners, ReportShortcuts, ReportBlocks, FirstLists;
    var d := s.tasks[t].definition;
    BannerReports(s.shown, ds, d.bannerSources);
    var banners := ReportBanners(s.shown, ds, d.bannerSources).(base := base);
    ShortcutReports(banners, ds, d.shortcuts, index);
    BlockReports(ReportShortcuts(banners, ds, d.shortcuts, index), ds, d.blocks);
    LocksUntouched(s, Discovered(s, t, ds, base, index));
  }

  lemma LoadStepHeld(s: State, step: Step)
    requires AllHeld(s) && Enabled(s, step) && (step.BlockSettled? || step.LoadSettled? || step.SourceFailed? || step.BannersSettled?)
    ensures AllHeld(Apply(s, step))
  {
    hide Columns, CategoryGoesOn, Flat, Without;
    LocksUntouched(s, Apply(s, step));
  }

  lemma StaleHeld(s: State, step: Step)
    requires AllHeld(s) && Enabled(s, step) && IsStale(s, step)
    ensures AllHeld(Apply(s, step))
  {
    hide Apply;
    StaleStepsAreInert(s, step);
    LocksUntouched(s, Apply(s, step));
  }

  lemma StepHeld(s: State, step: Step)
    requires AllHeld(s) && Enabled(s, step) && !step.Dispose?
    ensures AllHeld(Apply(s, step))
  {
    hide AllHeld, Discovered, BlockLoaded, LoadDone, StartSection, SectionResponse, CategoryResponse, Settle, BannersLoaded, Report;
    if IsStale(s, step) {
      StaleHeld(s, step);
    } else {
      match step {
        case LoadCatalog(t, input) => NothingHeld(StartLoad(s, t, input));
        case SourcesSettled(t, ds, base, index) => DiscoveredLocks(s, t, ds, base, index);
        case LoadSection(t, i, initial) => LoadSectionHeld(s, t, i, initial);
        case SourceSettled(t, page, dedupe) => SourceSettledHeld(s, t, page, dedupe);
        case CategorySettled(t, page, dedupe) => CategorySettledHeld(s, t, page, dedupe);
        case SectionSettled(t) => SettleHeld(s, t, s.tasks[t].owner, s.tasks[t].ok);
        case _ => LoadStepHeld(s, step);
      }
    }
  }

  lemma NothingHeld(s: State)
    requires s.shown.loading == {}
    ensures AllHeld(s)
  {
  }

  lemma {:induction false} RunHeld(s: State, steps: seq<Step>, t: State)
    requires AllHeld(s) && Run(s, steps, t) && forall step | step in steps :: !step.Dispose?
    ensures AllHeld(t)
    decreases |steps|
  {
    hide AllHeld, Apply, Enabled;
    if steps != [] {
      assert steps[0] in steps;
      StepHeld(s, steps[0]);
      RunHeld(Apply(s, steps[0]), steps[1..], t);
    }
  }

  /** However calls end, no lock is leaked: while the catalog is in use, with no call under way nothing is locked. */
  lemma LocksAreReleased(steps: seq<Step>, t: State)
    requires Run(INITIAL, steps, t) && forall step | step in steps :: !step.Dispose?
    requires forall k | k in t.tasks :: t.tasks[k].revision != t.revision
    ensures t.shown.loading == {}
  {
    hide Run;
    NothingHeld(INITIAL);
    RunHeld(INITIAL, steps, t);
    forall lock ensures lock !in t.shown.loading {
      assert forall k: nat :: !HeldBy(t, k, lock);
    }
  }
}
