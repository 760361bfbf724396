/** Rendered sections of a custom home (customHomeComposition.ts). */
module Composition {
  import opened Wrappers
  import opened StableGrouping
  import opened Sequences
  import opened Json

  type Item = string

  datatype SourceState = SourceState(name: string, hasInitialItems: bool, haveMore: bool)

  datatype Section = Section(
    title: Option<string>,
    items: seq<Item>,
    sources: seq<SourceState>,
    sourceOrder: seq<string>,
    haveMore: bool,
    subsections: seq<seq<SourceState>>)

  datatype Contribution = Contribution(id: string, blockId: string, section: Section)

  type DisplayOptions = map<string, string>

  datatype Block = Block(id: string, displayOptions: Option<DisplayOptions>)

  /** What composing reads of a definition. */
  datatype Home = Home(id: string, merge: bool, blocks: seq<Block>)

  datatype Rendered = Rendered(
    id: string,
    preferenceKey: string,
    displayOptions: Option<DisplayOptions>,
    title: Option<string>,
    items: seq<Item>,
    sourceOrder: seq<string>,
    haveMore: bool,
    needsInitial: bool,
    contributionIds: seq<string>,
    blockIds: seq<string>)

  /** Title folding, and interleaving with deduplication, stay abstract. */
  type TitleKey = Option<string> -> string
  type MergeItems = seq<seq<Item>> -> seq<Item>

  /** `encodeURIComponent`, which stays abstract. */
  type Encode = string -> string

  // --- Keys ----------------------------------------------------------------

  function ContributionKey(titleKey: TitleKey, merge: bool): Contribution -> string {
    (c: Contribution) =>
      if merge && titleKey(c.section.title) != "" && c.section.subsections == [] then "title:" + titleKey(c.section.title)
      else "member:" + c.id
  }

  function Ids(members: seq<Contribution>): (r: seq<string>)
    ensures |r| == |members| && forall i | 0 <= i < |r| :: r[i] == members[i].id
  {
    seq(|members|, i requires 0 <= i < |members| => members[i].id)
  }

  function IdText(ids: seq<string>): string {
    Print(Arr(seq(|ids|, i requires 0 <= i < |ids| => Str(ids[i]))))
  }

  // --- Sections ------------------------------------------------------------

  predicate SourceHasMore(s: SourceState) {
    !s.hasInitialItems || s.haveMore
  }

  predicate HasMore(c: Contribution) {
    c.section.haveMore || exists i | 0 <= i < |c.section.sources| :: SourceHasMore(c.section.sources[i])
  }

  predicate AnyMissing(sources: seq<SourceState>) {
    exists i | 0 <= i < |sources| :: !sources[i].hasInitialItems
  }

  predicate NeedsInitial(c: Contribution) {
    AnyMissing(c.section.sources) || exists v | 0 <= v < |c.section.subsections| :: AnyMissing(c.section.subsections[v])
  }

  function SourceOrders(members: seq<Contribution>): seq<string> {
    if members == [] then [] else SourceOrders(members[..|members| - 1]) + members[|members| - 1].section.sourceOrder
  }

  /** The display options of the block with this id, if it exists and has any. */
  function DisplayOptionsOf(blocks: seq<Block>, id: string): Option<DisplayOptions> {
    if blocks == [] then None
    else if blocks[0].id == id then blocks[0].displayOptions
    else DisplayOptionsOf(blocks[1..], id)
  }

  function PreferenceKey(homeId: string, sectionId: string, encode: Encode): string {
    "custom:" + encode(homeId) + ":" + encode(sectionId)
  }

  function Render(home: Home, members: seq<Contribution>, mergeItems: MergeItems, encode: Encode): Rendered
    requires members != []
  {
    Rendered(IdText(Ids(members)), PreferenceKey(home.id, IdText(Ids(members)), encode),
             DisplayOptionsOf(home.blocks, members[0].blockId), members[0].section.title,
             mergeItems(seq(|members|, i requires 0 <= i < |members| => members[i].section.items)),
             SourceOrders(members),
             exists i | 0 <= i < |members| :: HasMore(members[i]),
             exists i | 0 <= i < |members| :: NeedsInitial(members[i]),
             Ids(members),
             FirstKeys(members, (c: Contribution) => c.blockId))
  }

  function Compose(home: Home, contributions: seq<Contribution>, titleKey: TitleKey, mergeItems: MergeItems, encode: Encode): (r: seq<Rendered>)
    ensures |r| == |GroupBy(contributions, ContributionKey(titleKey, home.merge))|
  {
    var gs := GroupBy(contributions, ContributionKey(titleKey, home.merge));
    GroupsAreWellGrouped(contributions, ContributionKey(titleKey, home.merge));
    seq(|gs|, i requires 0 <= i < |gs| => Render(home, gs[i].items, mergeItems, encode))
  }

  method ComposeCustomHomeSections(home: Home, contributions: seq<Contribution>, titleKey: TitleKey, mergeItems: MergeItems, encode: Encode)
    returns (sections: seq<Rendered>)
    ensures sections == Compose(home, contributions, titleKey, mergeItems, encode)
  {
    ghost var groupKey := ContributionKey(titleKey, home.merge);
    GroupsAreWellGrouped(contributions, groupKey);
    var order: seq<string>, groups: map<string, seq<Contribution>> := [], map[];
    NothingHeld(groupKey);
    hide GroupBy, MapHolds, WellGrouped, Render;
    assert contributions[..0] == [];
    for n := 0 to |contributions|
      invariant MapHolds(order, groups, GroupBy(contributions[..n], groupKey))
    {
      var contribution := contributions[n];
      var title := titleKey(contribution.section.title);
      var k := if home.merge && title != "" && contribution.section.subsections == [] then "title:" + title
               else "member:" + contribution.id;
      HeldNext(contributions, n, groupKey, order, groups);
      if k !in groups {
        order := order + [k];
        groups := groups[k := [contribution]];
      } else {
        groups := groups[k := groups[k] + [contribution]];
      }
    }
    AllHeld(contributions, groupKey, order, groups);
    sections := seq(|order|, i requires 0 <= i < |order| && order[i] in groups && groups[order[i]] != [] =>
      Render(home, groups[order[i]], mergeItems, encode));
  }

  // --- What composing keeps --------------------------------------------------

  /** All contribution ids shown, section after section. */
  function Shown(sections: seq<Rendered>): seq<string> {
    if sections == [] then [] else Shown(sections[..|sections| - 1]) + sections[|sections| - 1].contributionIds
  }

  lemma {:induction false} IdsOfFlattened(gs: seq<Bucket<Contribution, string>>, sections: seq<Rendered>)
    requires |sections| == |gs| && forall i | 0 <= i < |gs| :: sections[i].contributionIds == Ids(gs[i].items)
    ensures Shown(sections) == Ids(Flatten(gs))
  {
    if gs != [] {
      var n := |gs| - 1;
      IdsOfFlattened(gs[..n], sections[..n]);
      assert Ids(Flatten(gs[..n]) + gs[n].items) == Ids(Flatten(gs[..n])) + Ids(gs[n].items);
    }
  }

  lemma {:induction false} IdsPermute(xs: seq<Contribution>, ys: seq<Contribution>)
    requires multiset(xs) == multiset(ys)
    ensures multiset(Ids(xs)) == multiset(Ids(ys))
    decreases |xs|
  {
    hide Ids;
    assert |multiset(xs)| == |xs| && |multiset(ys)| == |ys|;
    if xs != [] {
      var n := |xs| - 1;
      assert xs[n] in multiset(ys);
      var j :| 0 <= j < |ys| && ys[j] == xs[n];
      RemoveAt(xs, n);
      RemoveAt(ys, j);
      IdsPermute(xs[..n] + xs[n + 1..], ys[..j] + ys[j + 1..]);
      IdsWithout(xs, n);
      IdsWithout(ys, j);
    }
  }

  lemma IdsWithout(xs: seq<Contribution>, j: nat)
    requires j < |xs|
    ensures multiset(Ids(xs)) == multiset(Ids(xs[..j] + xs[j + 1..])) + multiset{xs[j].id}
  {
    RemoveAt(Ids(xs), j);
    assert Ids(xs)[..j] + Ids(xs)[j + 1..] == Ids(xs[..j] + xs[j + 1..]);
  }

  /** Every contribution is shown in exactly one section, as often as it occurs. */
  lemma ComposingIsPartition(home: Home, contributions: seq<Contribution>, titleKey: TitleKey, mergeItems: MergeItems, encode: Encode)
    ensures multiset(Shown(Compose(home, contributions, titleKey, mergeItems, encode))) == multiset(Ids(contributions))
  {
    hide WellGrouped, GroupBy, IdText, SourceOrders;
    var gs := GroupBy(contributions, ContributionKey(titleKey, home.merge));
    IdsOfFlattened(gs, Compose(home, contributions, titleKey, mergeItems, encode));
    GroupingIsPermutation(contributions, ContributionKey(titleKey, home.merge));
    IdsPermute(Flatten(gs), contributions);
  }

  lemma IdTextInjective(xs: seq<string>, ys: seq<string>)
    ensures IdText(xs) == IdText(ys) <==> xs == ys
  {
    hide Print;
    if IdText(xs) == IdText(ys) {
      var v, w := Arr(seq(|xs|, i requires 0 <= i < |xs| => Str(xs[i]))), Arr(seq(|ys|, i requires 0 <= i < |ys| => Str(ys[i])));
      PrintInjective(v, w);
      forall i | 0 <= i < |xs| ensures xs[i] == ys[i] {
        assert v.items[i] == w.items[i];
      }
    }
  }

  /** The ids of two groups differ in their first member already. */
  lemma GroupsStartApart(contributions: seq<Contribution>, key: Contribution -> string, i: nat, j: nat)
    requires Distinct(Ids(contributions)) && i < j < |GroupBy(contributions, key)|
    ensures Ids(GroupBy(contributions, key)[i].items) != Ids(GroupBy(contributions, key)[j].items)
  {
    var gs := GroupBy(contributions, key);
    GroupsAreWellGrouped(contributions, key);
    var a, b := gs[i].items[0], gs[j].items[0];
    MembersFrom(contributions, key, gs[i].key);
    MembersFrom(contributions, key, gs[j].key);
    assert a in gs[i].items && b in gs[j].items;
    assert key(a) == gs[i].key && key(b) == gs[j].key;
    DifferentIds(contributions, a, b);
    assert Ids(gs[i].items)[0] == a.id && Ids(gs[j].items)[0] == b.id;
  }

  lemma DifferentIds(contributions: seq<Contribution>, a: Contribution, b: Contribution)
    requires Distinct(Ids(contributions)) && a in contributions && b in contributions && a != b
    ensures a.id != b.id
  {
    var i :| 0 <= i < |contributions| && contributions[i] == a;
    var j :| 0 <= j < |contributions| && contributions[j] == b;
    assert Ids(contributions)[i] != Ids(contributions)[j];
  }

  /** Rendered section ids are pairwise distinct whenever member ids are. */
  lemma SectionIdsDistinct(home: Home, contributions: seq<Contribution>, titleKey: TitleKey, mergeItems: MergeItems, encode: Encode)
    requires Distinct(Ids(contributions))
    ensures var r := Compose(home, contributions, titleKey, mergeItems, encode);
            forall i, j | 0 <= i < j < |r| :: r[i].id != r[j].id
  {
    hide WellGrouped, GroupBy, IdText, SourceOrders, Distinct;
    var key, r := ContributionKey(titleKey, home.merge), Compose(home, contributions, titleKey, mergeItems, encode);
    forall i, j | 0 <= i < j < |r| ensures r[i].id != r[j].id {
      GroupsStartApart(contributions, key, i, j);
      IdTextInjective(Ids(GroupBy(contributions, key)[i].items), Ids(GroupBy(contributions, key)[j].items));
    }
  }

  /** One-to-one encodings keep preference keys apart as well. */
  lemma PreferenceKeysDistinct(home: Home, contributions: seq<Contribution>, titleKey: TitleKey, mergeItems: MergeItems, encode: Encode)
    requires Distinct(Ids(contributions)) && forall x, y :: encode(x) == encode(y) ==> x == y
    ensures var r := Compose(home, contributions, titleKey, mergeItems, encode);
            forall i, j | 0 <= i < j < |r| :: r[i].preferenceKey != r[j].preferenceKey
  {
    hide GroupBy, IdText, SourceOrders, Distinct;
    var r := Compose(home, contributions, titleKey, mergeItems, encode);
    SectionIdsDistinct(home, contributions, titleKey, mergeItems, encode);
    forall i, j | 0 <= i < j < |r| ensures r[i].preferenceKey != r[j].preferenceKey {
      var prefix := "custom:" + encode(home.id) + ":";
      assert r[i].preferenceKey[|prefix|..] == encode(r[i].id) && r[j].preferenceKey[|prefix|..] == encode(r[j].id);
    }
  }

  /** Nothing left to load is lost: some section has more exactly when some contribution has. */
  lemma MoreIsKept(home: Home, contributions: seq<Contribution>, titleKey: TitleKey, mergeItems: MergeItems, encode: Encode)
    ensures var r := Compose(home, contributions, titleKey, mergeItems, encode);
            (exists i :: 0 <= i < |r| && r[i].haveMore) <==> (exists c :: c in contributions && HasMore(c))
  {
    hide HasMore, NeedsInitial, IdText, SourceOrders;
    var key, r := ContributionKey(titleKey, home.merge), Compose(home, contributions, titleKey, mergeItems, encode);
    var gs := GroupBy(contributions, key);
    if i :| 0 <= i < |r| && r[i].haveMore {
      var m :| 0 <= m < |gs[i].items| && HasMore(gs[i].items[m]);
      MembersFrom(contributions, key, gs[i].key);
      assert gs[i].items[m] in gs[i].items;
    }
    if c :| c in contributions && HasMore(c) {
      var n :| 0 <= n < |contributions| && contributions[n] == c;
      assert Occurs(contributions, key, key(c));
      KeysOccur(contributions, key, key(c));
      var i :| 0 <= i < |gs| && FirstKeys(contributions, key)[i] == key(c);
      MembersHoldAll(contributions, key, n);
      var m :| 0 <= m < |gs[i].items| && gs[i].items[m] == c;
      assert r[i].haveMore;
    }
  }

  /** Each section stands where its first contribution stands. */
  lemma {:induction false} SectionsByFirstContribution<T, K>(xs: seq<T>, key: T -> K, i: nat, j: nat, n: nat)
    requires i < j < |FirstKeys(xs, key)| && n < |xs| && key(xs[n]) == FirstKeys(xs, key)[j]
    ensures exists m :: 0 <= m < n && key(xs[m]) == FirstKeys(xs, key)[i]
  {
    var init := xs[..|xs| - 1];
    if j < |FirstKeys(init, key)| {
      if n < |init| {
        SectionsByFirstContribution(init, key, i, j, n);
      } else {
        KeysOccur(init, key, FirstKeys(init, key)[i]);
        var m :| 0 <= m < |init| && key(init[m]) == FirstKeys(init, key)[i];
        assert key(xs[m]) == FirstKeys(xs, key)[i];
      }
    } else {
      KeysOccur(init, key, FirstKeys(init, key)[i]);
      KeysOccur(init, key, key(xs[n]));
      KeysDistinct(xs, key);
      var m :| 0 <= m < |init| && key(init[m]) == FirstKeys(init, key)[i];
      assert forall q | 0 <= q < |init| :: key(init[q]) != key(xs[n]) && init[q] == xs[q];
      assert key(xs[m]) == FirstKeys(xs, key)[i];
    }
  }
}
