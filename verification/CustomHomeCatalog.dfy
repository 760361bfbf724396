/**
 Loading of a custom home catalog (useCustomHomeCatalog.ts).

 The code between two awaits is one step. A task is a suspended call with the
 locals it captured; whichever response, failure or restart comes next is up to
 the schedule. `consumed` keeps the category pages taken over in this revision.
 */
module CustomHomeCatalog {
  import opened Wrappers
  import opened Sequences
  import opened Json
  import opened CatalogMembers
  import H = HomeContentIdentity

  // --- Definitions and discoveries -----------------------------------------

  datatype Kind = CategoryBlock(categoryKey: string) | SectionBlock(sectionKey: string, subsectionKey: Option<string>)

  datatype Block = Block(id: string, kind: Kind, sourceId: string, title: Option<string>)

  datatype Shortcut = Shortcut(sourceId: string, categoryKey: string)

  datatype Definition = Definition(blocks: seq<Block>, bannerSources: seq<string>, shortcuts: seq<Shortcut>)

  function BlockIds(d: Definition): (r: seq<string>)
    ensures |r| == |d.blocks| && forall i | 0 <= i < |r| :: r[i] == d.blocks[i].id
  {
    seq(|d.blocks|, i requires 0 <= i < |d.blocks| => d.blocks[i].id)
  }

  /** A section or subsection as discovered; a subsection comes merged over its section. */
  datatype Offer = Offer(key: Option<string>, ambiguous: bool, section: Section)

  datatype OfferedSection = OfferedSection(offer: Offer, variants: seq<Offer>)

  datatype Discovery = Discovery(available: bool, categories: seq<H.Category>, sections: seq<OfferedSection>)

  type Discoveries = map<string, Discovery>

  predicate IsAvailable(ds: Discoveries, sourceId: string) {
    sourceId in ds && ds[sourceId].available
  }

  predicate OffersKey(o: Offer, key: string) {
    o.key == Some(key) && !o.ambiguous
  }

  /** The positions of the offers with a key. */
  function Matching(offers: seq<Offer>, key: string): (r: seq<nat>)
    ensures forall i | 0 <= i < |r| :: r[i] < |offers| && OffersKey(offers[r[i]], key)
  {
    if offers == [] then [] else
      var n := |offers| - 1;
      Matching(offers[..n], key) + if OffersKey(offers[n], key) then [n] else []
  }

  function Offers(sections: seq<OfferedSection>): (r: seq<Offer>)
    ensures |r| == |sections|
  {
    seq(|sections|, i requires 0 <= i < |sections| => sections[i].offer)
  }

  /** The one section a reference leads to, or None where the program throws. */
  function ResolveSection(ds: Discoveries, sourceId: string, sectionKey: string, subsectionKey: Option<string>): Option<Section> {
    if !IsAvailable(ds, sourceId) then None else
      var sections := ds[sourceId].sections;
      var found := Matching(Offers(sections), sectionKey);
      if |found| != 1 then None
      else if subsectionKey.None? then Some(sections[found[0]].offer.section)
      else
        var variants := Matching(sections[found[0]].variants, subsectionKey.value);
        if |variants| != 1 then None else Some(sections[found[0]].variants[variants[0]].section)
  }

  predicate ResolvesCategory(ds: Discoveries, sourceId: string, key: string) {
    IsAvailable(ds, sourceId) && H.ResolveCategory(ds[sourceId].categories, key).Some?
  }

  function SectionMember(b: Block, s: Section): Member
    requires b.kind.SectionBlock?
  {
    Member(MemberId(b.id, [Str(b.kind.sectionKey), if b.kind.subsectionKey.Some? then Str(b.kind.subsectionKey.value) else Null]),
           b.id, false, Captioned(s, b.title))
  }

  // --- State ---------------------------------------------------------------

  datatype Issue = Issue(id: string, repairRequired: bool)

  datatype Lock = MemberLock(id: string) | CategoryLock(blockId: string)

  datatype CategoryState = CategoryState(page: nat, haveMore: bool)

  /** Banners, deferred banners and shortcuts, which take no part in the protocol. */
  type Base = string

  datatype Published = Published(base: Base, definition: Definition, members: seq<Member>)

  /** What a caller can see of the catalog, with its bookkeeping. */
  datatype Shown = Shown(
    members: seq<Member>,
    issues: seq<Issue>,
    loading: set<Lock>,
    categories: map<string, CategoryState>,
    base: Base,
    catalog: Option<Published>)

  const NOTHING := Shown([], [], {}, map[], "", None)

  datatype Owner = Owner(id: string, blockId: string, categoryPage: bool)

  datatype Task =
    | Discovering(revision: nat, definition: Definition)
    | Resolving(revision: nat, definition: Definition, lists: seq<Option<seq<Member>>>)
    | Fetching(revision: nat, owner: Owner, initial: bool, next: Section, queue: seq<Source>, failed: bool)
    | Paging(revision: nat, owner: Owner, category: CategoryState)
    | Finishing(revision: nat, owner: Owner, ok: bool)

  datatype State = State(
    revision: nat,
    definition: Option<Definition>,
    shown: Shown,
    tasks: map<nat, Task>,
    consumed: map<string, seq<nat>>)

  const INITIAL := State(0, None, NOTHING, map[], map[])

  // --- Pieces of the steps -------------------------------------------------

  function Without(issues: seq<Issue>, id: string): seq<Issue> {
    if issues == [] then [] else
      Without(issues[..|issues| - 1], id) + if issues[|issues| - 1].id != id then [issues[|issues| - 1]] else []
  }

  function Report(v: Shown, id: string, repairRequired: bool): Shown {
    v.(issues := Without(v.issues, id) + [Issue(id, repairRequired)])
  }

  function Publish(v: Shown, definition: Option<Definition>): Shown {
    if definition.Some? then v.(catalog := Some(Published(v.base, definition.value, v.members))) else v
  }

  function EndTask(s: State, t: nat): State {
    s.(tasks := s.tasks - {t})
  }

  // --- Loading -------------------------------------------------------------

  /** The input of a load: nothing, something invalid, or a validated definition. */
  datatype Input = Absent | Invalid(message: string) | Given(definition: Definition)

  function StartLoad(s: State, t: nat, input: Input): State {
    var revision := s.revision + 1;
    match input
    case Absent => State(revision, None, NOTHING, s.tasks, map[])
    case Invalid(_) => State(revision, s.definition, NOTHING, s.tasks, map[])
    case Given(d) => State(revision, Some(d), NOTHING, s.tasks[t := Discovering(revision, d)], map[])
  }

  function ReportBanners(v: Shown, ds: Discoveries, sources: seq<string>): Shown {
    if sources == [] then v else
      var before := ReportBanners(v, ds, sources[..|sources| - 1]);
      var id := sources[|sources| - 1];
      if IsAvailable(ds, id) then before else Report(before, "banners:" + id, false)
  }

  function ReportShortcuts(v: Shown, ds: Discoveries, shortcuts: seq<Shortcut>, index: nat -> string): Shown {
    if shortcuts == [] then v else
      var n := |shortcuts| - 1;
      var before := ReportShortcuts(v, ds, shortcuts[..n], index);
      if ResolvesCategory(ds, shortcuts[n].sourceId, shortcuts[n].categoryKey) then before
      else Report(before, "shortcut:" + index(n), IsAvailable(ds, shortcuts[n].sourceId))
  }

  predicate ResolvesBlock(ds: Discoveries, b: Block) {
    match b.kind
    case CategoryBlock(key) => ResolvesCategory(ds, b.sourceId, key)
    case SectionBlock(key, sub) => ResolveSection(ds, b.sourceId, key, sub).Some?
  }

  function ReportBlock(v: Shown, ds: Discoveries, b: Block): Shown {
    Report(v, "block:" + b.id, IsAvailable(ds, b.sourceId) && b.kind.SectionBlock?)
  }

  function ReportBlocks(v: Shown, ds: Discoveries, blocks: seq<Block>): Shown {
    if blocks == [] then v else
      var before := ReportBlocks(v, ds, blocks[..|blocks| - 1]);
      var b := blocks[|blocks| - 1];
      if ResolvesBlock(ds, b) then before else ReportBlock(before, ds, b)
  }

  /** The members of a block known at once; None while its category page is requested. */
  function FirstList(ds: Discoveries, b: Block): Option<seq<Member>> {
    match b.kind
    case CategoryBlock(key) => if ResolvesBlock(ds, b) then None else Some([])
    case SectionBlock(key, sub) =>
      var section := ResolveSection(ds, b.sourceId, key, sub);
      if section.Some? then Some([SectionMember(b, section.value)]) else Some([])
  }

  function FirstLists(ds: Discoveries, blocks: seq<Block>): (r: seq<Option<seq<Member>>>)
    ensures |r| == |blocks| && forall i | 0 <= i < |r| :: r[i] == FirstList(ds, blocks[i])
  {
    seq(|blocks|, i requires 0 <= i < |blocks| => FirstList(ds, blocks[i]))
  }

  /** All discoveries settled: everything up to the requests of the category blocks. */
  function Discovered(s: State, t: nat, ds: Discoveries, base: Base, index: nat -> string): State
    requires t in s.tasks && s.tasks[t].Discovering?
  {
    var task := s.tasks[t];
    if task.revision != s.revision then EndTask(s, t) else
      var d := task.definition;
      var banners := ReportBanners(s.shown, ds, d.bannerSources).(base := base);
      var shown := ReportBlocks(ReportShortcuts(banners, ds, d.shortcuts, index), ds, d.blocks);
      s.(shown := shown, tasks := s.tasks[t := Resolving(task.revision, d, FirstLists(ds, d.blocks))])
  }

  /** Whether a category goes on: the page says so, or a column without sources of its own does. */
  predicate CategoryGoesOn(page: Page) {
    page.haveMore || exists i | 0 <= i < |page.sections| :: page.sections[i].haveMore && page.sections[i].sources == []
  }

  function SetList(s: State, t: nat, i: nat, list: seq<Member>): State
    requires t in s.tasks && s.tasks[t].Resolving? && i < |s.tasks[t].lists|
  {
    s.(tasks := s.tasks[t := s.tasks[t].(lists := s.tasks[t].lists[i := Some(list)])])
  }

  predicate AwaitsBlock(s: State, t: nat, i: nat) {
    && t in s.tasks && s.tasks[t].Resolving? && i < |s.tasks[t].lists| && i < |s.tasks[t].definition.blocks|
    && s.tasks[t].lists[i].None?
  }

  /** The first page of the category block `i` settled. */
  function BlockLoaded(s: State, t: nat, i: nat, result: Result<Page, string>): State
    requires AwaitsBlock(s, t, i)
  {
    var task, b := s.tasks[t], s.tasks[t].definition.blocks[i];
    if task.revision != s.revision then SetList(s, t, i, [])
    else match result
      case Err(_) => SetList(s, t, i, []).(shown := Report(s.shown, "block:" + b.id, false))
      case Ok(page) =>
        var shown := s.shown.(categories := s.shown.categories[b.id := CategoryState(1, CategoryGoesOn(page))]);
        var taken := s.consumed[b.id := [1]];
        var columns := Columns(b.id, page, b.title);
        if columns.Some? then SetList(s, t, i, columns.value).(shown := shown, consumed := taken)
        else SetList(s, t, i, []).(shown := Report(shown, "block:" + b.id, false), consumed := taken)
  }

  function Values(lists: seq<Option<seq<Member>>>): (r: seq<seq<Member>>)
    requires forall i | 0 <= i < |lists| :: lists[i].Some?
    ensures |r| == |lists| && forall i | 0 <= i < |r| :: r[i] == lists[i].value
  {
    seq(|lists|, i requires 0 <= i < |lists| => lists[i].value)
  }

  predicate BlocksSettled(s: State, t: nat) {
    t in s.tasks && s.tasks[t].Resolving? && forall i | 0 <= i < |s.tasks[t].lists| :: s.tasks[t].lists[i].Some?
  }

  function LoadDone(s: State, t: nat): State
    requires BlocksSettled(s, t)
  {
    var task := s.tasks[t];
    if task.revision != s.revision then EndTask(s, t)
    else EndTask(s, t).(shown := Publish(s.shown.(members := Flat(Values(task.lists))), s.definition))
  }

  // --- Sections ------------------------------------------------------------

  predicate Wanted(source: Source, initial: bool) {
    if initial then !source.hasInitialItems else !source.hasInitialItems || source.haveMore
  }

  function WantedSources(sources: seq<Source>, initial: bool): seq<Source> {
    if sources == [] then [] else
      var last := sources[|sources| - 1];
      WantedSources(sources[..|sources| - 1], initial) + if Wanted(last, initial) then [last] else []
  }

  /** The end of a section call: its issue, its lock, and the render groups. */
  function Settle(s: State, t: nat, owner: Owner, ok: bool): State {
    var noted := if ok then s.shown.(issues := Without(s.shown.issues, owner.id)) else Report(s.shown, owner.id, false);
    EndTask(s, t).(shown := Publish(noted.(loading := noted.loading - {MemberLock(owner.id)}), s.definition))
  }

  /** After the pages of its own sources, a category column may ask for the next page of its category. */
  function AfterPages(s: State, t: nat, owner: Owner, initial: bool): State {
    var b, v := owner.blockId, s.shown;
    if !initial && owner.categoryPage && b in v.categories && v.categories[b].haveMore then
      if CategoryLock(b) in v.loading then s.(tasks := s.tasks[t := Finishing(s.revision, owner, true)])
      else s.(shown := v.(loading := v.loading + {CategoryLock(b)}),
              tasks := s.tasks[t := Paging(s.revision, owner, v.categories[b])])
    else Settle(s, t, owner, true)
  }

  function StartSection(s: State, t: nat, i: nat, initial: bool): State
    requires i < |s.shown.members|
  {
    var m := s.shown.members[i];
    var owner := Owner(m.id, m.blockId, m.categoryPage);
    if MemberLock(m.id) in s.shown.loading then s else
      var locked := s.(shown := s.shown.(loading := s.shown.loading + {MemberLock(m.id)}));
      var sources := WantedSources(m.section.sources, initial);
      if sources == [] then AfterPages(locked, t, owner, initial)
      else locked.(tasks := s.tasks[t := Fetching(s.revision, owner, initial, m.section, sources, false)])
  }

  /** A page of one source: its items and the source with its new cursor. */
  datatype SourcePage = SourcePage(items: seq<Item>, source: Source)

  function Replaced(sources: seq<Source>, source: Source, replacement: Source): seq<Source> {
    seq(|sources|, i requires 0 <= i < |sources| => if sources[i] == source then replacement else sources[i])
  }

  function Advanced(next: Section, source: Source, page: SourcePage, dedupe: Dedupe): Section {
    var sources := Replaced(next.sources, source, page.source);
    next.(items := dedupe(next.items + page.items), sources := sources,
          haveMore := exists i | 0 <= i < |sources| :: sources[i].haveMore)
  }

  /** The loader writes its section back, wherever its member now stands. */
  function WriteBack(ms: seq<Member>, id: string, section: Section): (r: seq<Member>)
    ensures |r| == |ms| && forall i | 0 <= i < |r| :: r[i] == if ms[i].id == id then ms[i].(section := section) else ms[i]
  {
    seq(|ms|, i requires 0 <= i < |ms| => if ms[i].id == id then ms[i].(section := section) else ms[i])
  }

  /** The request for the head of the queue settled; the loop goes on with what is left. */
  function NextSource(s: State, t: nat, task: Task): State
    requires task.Fetching?
  {
    if task.queue != [] then s.(tasks := s.tasks[t := task])
    else if task.failed then Settle(s, t, task.owner, false)
    else AfterPages(s, t, task.owner, task.initial)
  }

  function SectionResponse(s: State, t: nat, result: Result<SourcePage, string>, dedupe: Dedupe): State
    requires t in s.tasks && s.tasks[t].Fetching? && s.tasks[t].queue != []
  {
    var task := s.tasks[t];
    if task.revision != s.revision then EndTask(s, t)
    else match result
      case Err(_) => NextSource(s, t, task.(queue := task.queue[1..], failed := true))
      case Ok(page) =>
        var next := Advanced(task.next, task.queue[0], page, dedupe);
        var shown := s.shown.(members := WriteBack(s.shown.members, task.owner.id, next));
        NextSource(s.(shown := Publish(shown, s.definition)), t, task.(next := next, queue := task.queue[1..]))
  }

  // --- Category pages ------------------------------------------------------

  function TitleOf(definition: Option<Definition>, blockId: string): Option<string> {
    if definition.None? then None else FindTitle(definition.value.blocks, blockId)
  }

  function FindTitle(blocks: seq<Block>, blockId: string): Option<string> {
    if blocks == [] then None else if blocks[0].id == blockId then blocks[0].title else FindTitle(blocks[1..], blockId)
  }

  function Unlocked(v: Shown, blockId: string): Shown {
    v.(loading := v.loading - {CategoryLock(blockId)})
  }

  /** The columns of a settled page, unless the request failed or a column cannot be identified. */
  function PageColumns(definition: Option<Definition>, task: Task, result: Result<Page, string>): (r: Option<seq<Member>>)
    requires task.Paging?
    ensures r.Some? ==> result.Ok?
  {
    if result.Ok? then Columns(task.owner.blockId, result.value, TitleOf(definition, task.owner.blockId)) else None
  }

  /** The view after a category response: the lock is released, and a page, if one was taken, is merged. */
  function PagedView(v: Shown, definition: Option<Definition>, task: Task, result: Result<Page, string>, dedupe: Dedupe): Shown
    requires task.Paging?
  {
    var b, columns := task.owner.blockId, PageColumns(definition, task, result);
    if columns.None? then Unlocked(v, b)
    else Unlocked(v.(members := MergePage(v.members, b, columns.value, dedupe),
                     categories := v.categories[b := CategoryState(task.category.page + 1, CategoryGoesOn(result.value))]), b)
  }

  /** The pages taken after a category response. */
  function PagedLog(consumed: map<string, seq<nat>>, definition: Option<Definition>, task: Task, result: Result<Page, string>)
    : map<string, seq<nat>>
    requires task.Paging?
  {
    var b, columns := task.owner.blockId, PageColumns(definition, task, result);
    if columns.None? then consumed
    else consumed[b := (if b in consumed then consumed[b] else []) + [task.category.page + 1]]
  }

  /** The next page of a category settled. */
  function CategoryResponse(s: State, t: nat, result: Result<Page, string>, dedupe: Dedupe): State
    requires t in s.tasks && s.tasks[t].Paging?
  {
    var task := s.tasks[t];
    if task.revision != s.revision then EndTask(s, t)
    else
      State(s.revision, s.definition, PagedView(s.shown, s.definition, task, result, dedupe),
            s.tasks[t := Finishing(task.revision, task.owner, PageColumns(s.definition, task, result).Some?)],
            PagedLog(s.consumed, s.definition, task, result))
  }

  function FinishSection(s: State, t: nat): State
    requires t in s.tasks && s.tasks[t].Finishing?
  {
    var task := s.tasks[t];
    if task.revision != s.revision then EndTask(s, t) else Settle(s, t, task.owner, task.ok)
  }

  // --- Transition system ---------------------------------------------------

  datatype Step =
    | LoadCatalog(task: nat, input: Input)
    | SourceFailed(task: nat, source: string)
    | SourcesSettled(task: nat, discoveries: Discoveries, base: Base, index: nat -> string)
    | BlockSettled(task: nat, block: nat, page: Result<Page, string>)
    | LoadSettled(task: nat)
    | LoadSection(task: nat, member: nat, initial: bool)
    | SourceSettled(task: nat, sourcePage: Result<SourcePage, string>, dedupe: Dedupe)
    | CategorySettled(task: nat, page: Result<Page, string>, dedupe: Dedupe)
    | SectionSettled(task: nat)
    | BannersSettled(revision: nat, source: string, newBase: Option<Base>)
    | Dispose

  predicate Enabled(s: State, step: Step) {
    match step
    case LoadCatalog(t, input) => t !in s.tasks && (input.Given? ==> Distinct(BlockIds(input.definition)))
    case SourceFailed(t, _) => t in s.tasks && s.tasks[t].Discovering?
    case SourcesSettled(t, _, _, _) => t in s.tasks && s.tasks[t].Discovering?
    case BlockSettled(t, i, _) => AwaitsBlock(s, t, i)
    case LoadSettled(t) => BlocksSettled(s, t)
    case LoadSection(t, i, _) => t !in s.tasks && i < |s.shown.members|
    case SourceSettled(t, _, _) => t in s.tasks && s.tasks[t].Fetching? && s.tasks[t].queue != []
    case CategorySettled(t, _, _) => t in s.tasks && s.tasks[t].Paging?
    case SectionSettled(t) => t in s.tasks && s.tasks[t].Finishing?
    case BannersSettled(_, _, _) => true
    case Dispose => true
  }

  function BannersLoaded(s: State, revision: nat, source: string, base: Option<Base>): State {
    if revision != s.revision then s
    else if base.None? then s.(shown := Report(s.shown, "banners:" + source, false))
    else s.(shown := Publish(s.shown.(issues := Without(s.shown.issues, "banners:" + source), base := base.value), s.definition))
  }

  function Apply(s: State, step: Step): State
    requires Enabled(s, step)
  {
    match step
    case LoadCatalog(t, input) => StartLoad(s, t, input)
    case SourceFailed(t, source) =>
      if s.tasks[t].revision != s.revision then s else s.(shown := Report(s.shown, "source:" + source, false))
    case SourcesSettled(t, ds, base, index) => Discovered(s, t, ds, base, index)
    case BlockSettled(t, i, page) => BlockLoaded(s, t, i, page)
    case LoadSettled(t) => LoadDone(s, t)
    case LoadSection(t, i, initial) => StartSection(s, t, i, initial)
    case SourceSettled(t, page, dedupe) => SectionResponse(s, t, page, dedupe)
    case CategorySettled(t, page, dedupe) => CategoryResponse(s, t, page, dedupe)
    case SectionSettled(t) => FinishSection(s, t)
    case BannersSettled(revision, source, base) => BannersLoaded(s, revision, source, base)
    case Dispose => s.(revision := s.revision + 1)
  }

  ghost predicate Run(s: State, steps: seq<Step>, t: State)
    decreases |steps|
  {
    if steps == [] then s == t else Enabled(s, steps[0]) && Run(Apply(s, steps[0]), steps[1..], t)
  }

  // --- The flags of a load -------------------------------------------------

  datatype Flags = Flags(isLoading: bool, hasLoaded: bool, errorMessage: Option<string>)

  const NOT_LOADED := Flags(false, false, None)

  /** A load sets the flags, and clears them at its end unless another one started meanwhile. */
  function FlagsAfter(s: State, f: Flags, step: Step): Flags {
    match step
    case LoadCatalog(_, Absent) => Flags(false, true, None)
    case LoadCatalog(_, Invalid(message)) => Flags(false, true, Some(message))
    case LoadCatalog(_, Given(_)) => Flags(true, false, None)
    case LoadSettled(t) =>
      if t in s.tasks && s.tasks[t].revision == s.revision then f.(isLoading := false, hasLoaded := true) else f
    case _ => f
  }

  // --- Stale continuations -------------------------------------------------

  /** A step that resumes a task of an older revision, or a banner response for one. */
  predicate IsStale(s: State, step: Step) {
    match step
    case LoadCatalog(_, _) => false
    case LoadSection(_, _, _) => false
    case Dispose => false
    case BannersSettled(revision, _, _) => revision != s.revision
    case SourceFailed(t, _) => t in s.tasks && s.tasks[t].revision != s.revision
    case SourcesSettled(t, _, _, _) => t in s.tasks && s.tasks[t].revision != s.revision
    case BlockSettled(t, _, _) => t in s.tasks && s.tasks[t].revision != s.revision
    case LoadSettled(t) => t in s.tasks && s.tasks[t].revision != s.revision
    case SourceSettled(t, _, _) => t in s.tasks && s.tasks[t].revision != s.revision
    case CategorySettled(t, _, _) => t in s.tasks && s.tasks[t].revision != s.revision
    case SectionSettled(t) => t in s.tasks && s.tasks[t].revision != s.revision
  }

  /** A continuation of an older revision changes nothing but its own frame: not members, catalog, categories, issues or locks. */
  lemma StaleStepsAreInert(s: State, step: Step)
    requires Enabled(s, step) && IsStale(s, step)
    ensures Apply(s, step) == s.(tasks := Apply(s, step).tasks)
    ensures forall k | k in s.tasks && s.tasks[k].revision == s.revision ::
              k in Apply(s, step).tasks && Apply(s, step).tasks[k] == s.tasks[k]
  {
  }
}
