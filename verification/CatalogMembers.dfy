/**
 Members of a custom home catalog and the merge of a category page into them
 (useCustomHomeCatalog.ts, `columns` and the body of `loadCategoryNext`).
 */
module CatalogMembers {
  import opened Wrappers
  import opened TextUtils
  import opened Sequences
  import opened Json

  type Item = string

  /** `request` stands for name, link and sorted parameters, which identify a source's cursor. */
  datatype Source = Source(request: string, hasInitialItems: bool, currentPage: nat, haveMore: bool)

  /** `key` is the identity key, or the id where there is no identity. */
  datatype Section = Section(
    key: string, ambiguous: bool, caption: string, items: seq<Item>, sources: seq<Source>, haveMore: bool)

  datatype Member = Member(id: string, blockId: string, categoryPage: bool, section: Section)

  /** One page of a category as the backend returns it. */
  datatype Page = Page(sections: seq<Section>, haveMore: bool)

  /** Deduplication of media items, which stays abstract. */
  type Dedupe = seq<Item> -> seq<Item>

  // --- Ids -----------------------------------------------------------------

  function MemberId(blockId: string, parts: seq<Value>): string {
    Print(Arr([Str(blockId)] + parts))
  }

  ghost predicate AllPlain(parts: seq<Value>) {
    forall i | 0 <= i < |parts| :: Plain(parts[i])
  }

  /** The id of a member starts with its block. */
  ghost predicate OwnId(m: Member) {
    exists parts :: AllPlain(parts) && m.id == MemberId(m.blockId, parts)
  }

  lemma PartsPlain(a: string, parts: seq<Value>)
    requires AllPlain(parts)
    ensures Plain(Arr([Str(a)] + parts))
  {
    var items := [Str(a)] + parts;
    assert forall i | 0 <= i < |items| :: Plain(items[i]);
  }

  lemma MemberIdInjective(a: string, xs: seq<Value>, b: string, ys: seq<Value>)
    requires AllPlain(xs) && AllPlain(ys)
    ensures MemberId(a, xs) == MemberId(b, ys) <==> a == b && xs == ys
  {
    var v, w := Arr([Str(a)] + xs), Arr([Str(b)] + ys);
    PartsPlain(a, xs);
    PartsPlain(b, ys);
    hide Print, Plain;
    if Print(v) == Print(w) {
      PrintInjective(v, w);
      assert v.items[0] == w.items[0] && v.items[1..] == w.items[1..];
      assert v.items[1..] == xs && w.items[1..] == ys;
    }
  }

  /** Members of different blocks have different ids. */
  lemma BlocksApart(m: Member, n: Member)
    requires OwnId(m) && OwnId(n) && m.id == n.id
    ensures m.blockId == n.blockId
  {
    hide MemberId;
    var xs :| AllPlain(xs) && m.id == MemberId(m.blockId, xs);
    var ys :| AllPlain(ys) && n.id == MemberId(n.blockId, ys);
    MemberIdInjective(m.blockId, xs, n.blockId, ys);
  }

  // --- Columns -------------------------------------------------------------

  function Captioned(s: Section, title: Option<string>): Section {
    if title.Some? && Trim(title.value) != "" then s.(caption := Trim(title.value)) else s
  }

  function Column(blockId: string, s: Section, title: Option<string>, haveMore: bool): Member {
    Member(MemberId(blockId, [Str(s.key)]), blockId, true, Captioned(s, title).(haveMore := s.haveMore || haveMore))
  }

  predicate Identifiable(sections: seq<Section>) {
    && (forall i | 0 <= i < |sections| :: !sections[i].ambiguous)
    && (forall i, j | 0 <= i < j < |sections| :: sections[i].key != sections[j].key)
  }

  /** The members of a page; None where a key is ambiguous or repeated and the program throws. */
  function Columns(blockId: string, page: Page, title: Option<string>): (r: Option<seq<Member>>)
    ensures r.Some? <==> Identifiable(page.sections)
    ensures r.Some? ==> |r.value| == |page.sections| && forall i | 0 <= i < |r.value| ::
              r.value[i] == Column(blockId, page.sections[i], title, page.haveMore)
  {
    if Identifiable(page.sections) then
      Some(seq(|page.sections|, i requires 0 <= i < |page.sections| => Column(blockId, page.sections[i], title, page.haveMore)))
    else None
  }

  /** Members of one block, with ids of their own. */
  ghost predicate BlockMembers(blockId: string, ms: seq<Member>) {
    && (forall i | 0 <= i < |ms| :: ms[i].blockId == blockId && OwnId(ms[i]))
    && UniqueIds(ms)
  }

  ghost predicate UniqueIds(ms: seq<Member>) {
    forall i, j | 0 <= i < j < |ms| :: ms[i].id != ms[j].id
  }

  lemma ColumnId(blockId: string, a: string, b: string)
    ensures MemberId(blockId, [Str(a)]) == MemberId(blockId, [Str(b)]) <==> a == b
    ensures AllPlain([Str(a)])
  {
    hide MemberId;
    MemberIdInjective(blockId, [Str(a)], blockId, [Str(b)]);
    assert [Str(a)] == [Str(b)] ==> Str(a) == [Str(a)][0] == [Str(b)][0];
  }

  lemma ColumnsAreMembers(blockId: string, page: Page, title: Option<string>)
    requires Identifiable(page.sections)
    ensures BlockMembers(blockId, Columns(blockId, page, title).value)
  {
    hide MemberId, Captioned;
    var ms := Columns(blockId, page, title).value;
    forall i | 0 <= i < |ms| ensures OwnId(ms[i]) {
      ColumnId(blockId, page.sections[i].key, "");
    }
    forall i, j | 0 <= i < j < |ms| ensures ms[i].id != ms[j].id {
      ColumnId(blockId, page.sections[i].key, page.sections[j].key);
    }
  }

  lemma IdentifiableSnoc(sections: seq<Section>, i: nat)
    requires i < |sections| && Identifiable(sections[..i])
    ensures Identifiable(sections[..i + 1]) <==>
              !sections[i].ambiguous && forall k | 0 <= k < i :: sections[k].key != sections[i].key
  {
    var init, longer := sections[..i], sections[..i + 1];
    assert forall k | 0 <= k < i :: init[k] == sections[k] == longer[k];
    assert longer[i] == sections[i];
  }

  lemma IdentifiablePrefix(sections: seq<Section>, i: nat)
    requires i <= |sections|
    ensures Identifiable(sections) ==> Identifiable(sections[..i])
  {
  }

  /** The loop over the sections of a page, with the set of the keys it has seen. */
  method CollectColumns(blockId: string, page: Page, title: Option<string>) returns (r: Option<seq<Member>>)
    ensures r.Some? <==> Identifiable(page.sections)
    ensures r == Columns(blockId, page, title)
    ensures r.Some? ==> BlockMembers(blockId, r.value)
  {
    hide Column, BlockMembers;
    var seen: set<string> := {};
    var members: seq<Member> := [];
    for i := 0 to |page.sections|
      invariant forall key :: key in seen <==> exists k | 0 <= k < i :: page.sections[k].key == key
      invariant Identifiable(page.sections[..i])
      invariant |members| == i
      invariant forall k | 0 <= k < i :: members[k] == Column(blockId, page.sections[k], title, page.haveMore)
    {
      var section := page.sections[i];
      IdentifiableSnoc(page.sections, i);
      if section.ambiguous || section.key in seen {
        IdentifiablePrefix(page.sections, i + 1);
        return None;
      }
      seen := seen + {section.key};
      members := members + [Column(blockId, section, title, page.haveMore)];
    }
    assert page.sections[..|page.sections|] == page.sections;
    ColumnsAreMembers(blockId, page, title);
    assert members == Columns(blockId, page, title).value;
    r := Some(members);
  }

  // --- Merging a page ------------------------------------------------------

  /** The first of the members with this id. */
  function FindMember(ms: seq<Member>, id: string): (r: Option<Member>)
    ensures r.Some? ==> r.value in ms && r.value.id == id
    ensures r.None? <==> forall m | m in ms :: m.id != id
  {
    if ms == [] then None else if ms[0].id == id then Some(ms[0]) else FindMember(ms[1..], id)
  }

  /** The first of the sources with this request. */
  function FindSource(sources: seq<Source>, request: string): (r: Option<Source>)
    ensures r.Some? ==> r.value in sources && r.value.request == request
    ensures r.None? <==> forall s | s in sources :: s.request != request
  {
    if sources == [] then None else if sources[0].request == request then Some(sources[0]) else FindSource(sources[1..], request)
  }

  /** The sources of a page, each with the cursor it already has, if it has one. */
  function KeepCursors(before: seq<Source>, after: seq<Source>): (r: seq<Source>)
    ensures |r| == |after|
    ensures forall i | 0 <= i < |r| :: r[i] == FindSource(before, after[i].request).GetOr(after[i])
  {
    seq(|after|, i requires 0 <= i < |after| => FindSource(before, after[i].request).GetOr(after[i]))
  }

  function MergeMember(m: Member, blockId: string, next: seq<Member>, dedupe: Dedupe): Member {
    if m.blockId != blockId then m
    else match FindMember(next, m.id)
         case Some(column) =>
           column.(section := column.section.(sources := KeepCursors(m.section.sources, column.section.sources),
                                              items := dedupe(m.section.items + column.section.items)))
         case None => m.(section := m.section.(haveMore := false))
  }

  function Updated(ms: seq<Member>, blockId: string, next: seq<Member>, dedupe: Dedupe): (r: seq<Member>)
    ensures |r| == |ms| && forall i | 0 <= i < |r| :: r[i] == MergeMember(ms[i], blockId, next, dedupe)
  {
    seq(|ms|, i requires 0 <= i < |ms| => MergeMember(ms[i], blockId, next, dedupe))
  }

  /** The columns that are not members yet, in page order. */
  function Additions(ms: seq<Member>, next: seq<Member>): (r: seq<Member>)
    ensures forall m | m in r :: m in next && FindMember(ms, m.id).None?
  {
    if next == [] then [] else
      var m := next[|next| - 1];
      Additions(ms, next[..|next| - 1]) + if FindMember(ms, m.id).None? then [m] else []
  }

  /** Position of the last member of the block, or -1. */
  function LastIndex(ms: seq<Member>, blockId: string): (i: int)
    ensures -1 <= i < |ms|
    ensures i >= 0 ==> ms[i].blockId == blockId
    ensures forall j | i < j < |ms| :: ms[j].blockId != blockId
  {
    if ms == [] then -1
    else if ms[|ms| - 1].blockId == blockId then |ms| - 1
    else LastIndex(ms[..|ms| - 1], blockId)
  }

  function MergePage(ms: seq<Member>, blockId: string, next: seq<Member>, dedupe: Dedupe): seq<Member> {
    var updated := Updated(ms, blockId, next, dedupe);
    var last := LastIndex(updated, blockId);
    updated[..last + 1] + Additions(updated, next) + updated[last + 1..]
  }

  // --- What the merge keeps ------------------------------------------------

  lemma UpdatedKeepsIds(ms: seq<Member>, blockId: string, next: seq<Member>, dedupe: Dedupe, i: nat)
    requires i < |ms| && BlockMembers(blockId, next)
    ensures var m := Updated(ms, blockId, next, dedupe)[i]; m.id == ms[i].id && m.blockId == ms[i].blockId
  {
    var column := FindMember(next, ms[i].id);
    if column.Some? {
      var j :| 0 <= j < |next| && next[j] == column.value;
    }
  }

  lemma {:induction false} AdditionsUnique(ms: seq<Member>, next: seq<Member>)
    requires UniqueIds(next)
    ensures UniqueIds(Additions(ms, next))
  {
    if next != [] {
      var init, m := next[..|next| - 1], next[|next| - 1];
      AdditionsUnique(ms, init);
      forall a | a in Additions(ms, init) ensures a.id != m.id {
        var j :| 0 <= j < |init| && init[j] == a;
        assert next[j].id != m.id;
      }
    }
  }

  lemma {:induction false} AdditionsHold(ms: seq<Member>, next: seq<Member>, m: Member)
    ensures m in Additions(ms, next) <==> m in next && FindMember(ms, m.id).None?
  {
    if next != [] {
      AdditionsHold(ms, next[..|next| - 1], m);
      InLast(next, m);
    }
  }

  ghost predicate AllOwn(ms: seq<Member>) {
    forall i | 0 <= i < |ms| :: OwnId(ms[i])
  }

  /** Members stand in the order `rank` gives to their blocks, and only in blocks that have a rank. */
  ghost predicate Ordered(ms: seq<Member>, blocks: seq<string>) {
    && (forall i | 0 <= i < |ms| :: ms[i].blockId in blocks)
    && (forall i, j | 0 <= i < j < |ms| :: Rank(blocks, ms[i].blockId) <= Rank(blocks, ms[j].blockId))
  }

  function Rank(blocks: seq<string>, id: string): (r: nat)
    ensures r <= |blocks| && (id in blocks ==> r < |blocks| && blocks[r] == id)
  {
    if blocks == [] || blocks[0] == id then 0 else Rank(blocks[1..], id) + 1
  }

  ghost predicate WellPlaced(ms: seq<Member>, blocks: seq<string>) {
    UniqueIds(ms) && AllOwn(ms) && Ordered(ms, blocks)
  }

  lemma RankInjective(blocks: seq<string>, a: string, b: string)
    requires a in blocks && b in blocks && Rank(blocks, a) == Rank(blocks, b)
    ensures a == b
  {
  }

  /** In well placed members each block is one stretch. */
  lemma BlocksAreContiguous(ms: seq<Member>, blocks: seq<string>, i: nat, j: nat, k: nat)
    requires WellPlaced(ms, blocks) && i < j < k < |ms| && ms[i].blockId == ms[k].blockId
    ensures ms[j].blockId == ms[i].blockId
  {
    RankInjective(blocks, ms[i].blockId, ms[j].blockId);
  }

  lemma UpdatedWellPlaced(ms: seq<Member>, blocks: seq<string>, blockId: string, next: seq<Member>, dedupe: Dedupe)
    requires WellPlaced(ms, blocks) && BlockMembers(blockId, next)
    ensures WellPlaced(Updated(ms, blockId, next, dedupe), blocks)
  {
    hide MergeMember, MemberId, Rank;
    var updated := Updated(ms, blockId, next, dedupe);
    forall i | 0 <= i < |ms| ensures updated[i].id == ms[i].id && updated[i].blockId == ms[i].blockId {
      UpdatedKeepsIds(ms, blockId, next, dedupe, i);
    }
    forall i | 0 <= i < |ms| ensures OwnId(updated[i]) {
      var parts :| AllPlain(parts) && ms[i].id == MemberId(ms[i].blockId, parts);
      assert updated[i].id == MemberId(updated[i].blockId, parts);
    }
  }

  /** Splicing members of a block, with new ids, after the last member of that block keeps everything in place. */
  lemma SpliceWellPlaced(ms: seq<Member>, blocks: seq<string>, blockId: string, more: seq<Member>)
    requires WellPlaced(ms, blocks) && BlockMembers(blockId, more) && LastIndex(ms, blockId) >= 0
    requires forall m | m in more :: FindMember(ms, m.id).None?
    ensures var k := LastIndex(ms, blockId) + 1; WellPlaced(ms[..k] + more + ms[k..], blocks)
  {
    hide MemberId, Rank, LastIndex, FindMember;
    var k := LastIndex(ms, blockId) + 1;
    var t := ms[..k] + more + ms[k..];
    forall i | 0 <= i < |t| ensures
        && (i < k ==> t[i] == ms[i]) && (k <= i < k + |more| ==> t[i] == more[i - k])
        && (k + |more| <= i ==> t[i] == ms[i - |more|]) {
    }
    SpliceUnique(ms, k, more);
    SpliceOrdered(ms, blocks, blockId, k, more);
  }

  lemma AppendUnique(ms: seq<Member>, more: seq<Member>)
    requires UniqueIds(ms) && UniqueIds(more)
    requires forall i, j | 0 <= i < |ms| && 0 <= j < |more| :: ms[i].id != more[j].id
    ensures UniqueIds(ms + more)
  {
  }

  lemma SpliceUnique(ms: seq<Member>, k: nat, more: seq<Member>)
    requires k <= |ms| && UniqueIds(ms) && UniqueIds(more) && forall m | m in more :: FindMember(ms, m.id).None?
    ensures UniqueIds(ms[..k] + more + ms[k..])
  {
    hide FindMember;
    forall i, j | 0 <= i < |ms| && 0 <= j < |more| ensures ms[i].id != more[j].id {
      assert more[j] in more && ms[i] in ms;
    }
    CutUnique(ms, k);
    AppendUnique(ms[..k], more);
    SpliceApart(ms, k, more);
    hide UniqueIds;
    AppendUnique(ms[..k] + more, ms[k..]);
  }

  lemma CutUnique(ms: seq<Member>, k: nat)
    requires k <= |ms| && UniqueIds(ms)
    ensures UniqueIds(ms[..k]) && UniqueIds(ms[k..])
  {
  }

  lemma SpliceApart(ms: seq<Member>, k: nat, more: seq<Member>)
    requires k <= |ms| && UniqueIds(ms)
    requires forall i, j | 0 <= i < |ms| && 0 <= j < |more| :: ms[i].id != more[j].id
    ensures forall i, j | 0 <= i < |ms[..k] + more| && 0 <= j < |ms[k..]| :: (ms[..k] + more)[i].id != ms[k..][j].id
  {
    forall i, j | 0 <= i < |ms[..k] + more| && 0 <= j < |ms[k..]| ensures (ms[..k] + more)[i].id != ms[k..][j].id {
      assert ms[k..][j] == ms[k + j];
      if i >= k {
        assert (ms[..k] + more)[i] == more[i - k];
      } else {
        assert (ms[..k] + more)[i] == ms[i];
      }
    }
  }

  lemma SpliceOrdered(ms: seq<Member>, blocks: seq<string>, blockId: string, k: nat, more: seq<Member>)
    requires 0 < k <= |ms| && Ordered(ms, blocks) && ms[k - 1].blockId == blockId
    requires forall i | 0 <= i < |more| :: more[i].blockId == blockId
    ensures Ordered(ms[..k] + more + ms[k..], blocks)
  {
    hide Rank;
    var t := ms[..k] + more + ms[k..];
    var at := Rank(blocks, blockId);
    forall i | 0 <= i < |t| ensures t[i].blockId in blocks
        && (i < k ==> Rank(blocks, t[i].blockId) <= at) && (i >= k + |more| ==> at <= Rank(blocks, t[i].blockId))
        && (k <= i < k + |more| ==> t[i].blockId == blockId) {
      if i < k {
        assert t[i] == ms[i];
      } else if i < k + |more| {
        assert t[i] == more[i - k];
      } else {
        assert t[i] == ms[i - |more|];
      }
    }
    forall i, j | 0 <= i < j < |t| ensures Rank(blocks, t[i].blockId) <= Rank(blocks, t[j].blockId) {
      if j < k {
        assert t[i] == ms[i] && t[j] == ms[j];
      } else if i >= k + |more| {
        assert t[i] == ms[i - |more|] && t[j] == ms[j - |more|];
      }
    }
  }

  lemma AdditionsAreMembers(ms: seq<Member>, blockId: string, next: seq<Member>)
    requires BlockMembers(blockId, next)
    ensures BlockMembers(blockId, Additions(ms, next))
  {
    hide MemberId, FindMember;
    AdditionsUnique(ms, next);
    forall i | 0 <= i < |Additions(ms, next)| ensures Additions(ms, next)[i] in next {
      assert Additions(ms, next)[i] in Additions(ms, next);
    }
  }

  predicate HasBlock(ms: seq<Member>, blockId: string) {
    exists i | 0 <= i < |ms| :: ms[i].blockId == blockId
  }

  /** A page merge keeps member ids unique, blocks contiguous, and blocks in definition order. */
  lemma MergeWellPlaced(ms: seq<Member>, blocks: seq<string>, blockId: string, next: seq<Member>, dedupe: Dedupe)
    requires WellPlaced(ms, blocks) && BlockMembers(blockId, next) && HasBlock(ms, blockId)
    ensures WellPlaced(MergePage(ms, blockId, next, dedupe), blocks)
  {
    hide WellPlaced, MergeMember, BlockMembers, Additions, LastIndex;
    var updated := Updated(ms, blockId, next, dedupe);
    UpdatedWellPlaced(ms, blocks, blockId, next, dedupe);
    AdditionsAreMembers(updated, blockId, next);
    var i: nat :| i < |ms| && ms[i].blockId == blockId;
    UpdatedKeepsIds(ms, blockId, next, dedupe, i);
    assert LastIndex(updated, blockId) >= 0 by {
      assert updated[i].blockId == blockId;
    }
    SpliceWellPlaced(updated, blocks, blockId, Additions(updated, next));
  }

  predicate HasId(ms: seq<Member>, id: string) {
    exists i | 0 <= i < |ms| :: ms[i].id == id
  }

  lemma HasIdConcat(ms: seq<Member>, ns: seq<Member>, id: string)
    ensures HasId(ms + ns, id) <==> HasId(ms, id) || HasId(ns, id)
  {
    var t := ms + ns;
    if i :| 0 <= i < |ms| && ms[i].id == id {
      assert t[i].id == id;
    }
    if i :| 0 <= i < |ns| && ns[i].id == id {
      assert t[|ms| + i].id == id;
    }
  }

  lemma UpdatedIds(ms: seq<Member>, blockId: string, next: seq<Member>, dedupe: Dedupe, id: string)
    requires BlockMembers(blockId, next)
    ensures HasId(Updated(ms, blockId, next, dedupe), id) <==> HasId(ms, id)
  {
    hide MergeMember;
    var updated := Updated(ms, blockId, next, dedupe);
    forall i | 0 <= i < |ms| ensures updated[i].id == ms[i].id {
      UpdatedKeepsIds(ms, blockId, next, dedupe, i);
    }
  }

  lemma FoundIffHasId(ms: seq<Member>, id: string)
    ensures FindMember(ms, id).Some? <==> HasId(ms, id)
  {
    if FindMember(ms, id).Some? {
      var i :| 0 <= i < |ms| && ms[i] == FindMember(ms, id).value;
    }
    if i :| 0 <= i < |ms| && ms[i].id == id {
      assert ms[i] in ms;
    }
  }

  lemma AddedIds(ms: seq<Member>, next: seq<Member>, id: string)
    ensures HasId(Additions(ms, next), id) <==> HasId(next, id) && !HasId(ms, id)
  {
    hide Additions, FindMember;
    var added := Additions(ms, next);
    FoundIffHasId(ms, id);
    if i :| 0 <= i < |added| && added[i].id == id {
      assert added[i] in added;
      var j :| 0 <= j < |next| && next[j] == added[i];
    }
    if HasId(next, id) && !HasId(ms, id) {
      var j :| 0 <= j < |next| && next[j].id == id;
      AdditionsHold(ms, next, next[j]);
      var i :| 0 <= i < |added| && added[i] == next[j];
    }
  }

  /** The merge loses no member and gains exactly the new columns. */
  lemma MergeMembers(ms: seq<Member>, blockId: string, next: seq<Member>, dedupe: Dedupe, id: string)
    requires BlockMembers(blockId, next)
    ensures HasId(MergePage(ms, blockId, next, dedupe), id) <==> HasId(ms, id) || HasId(next, id)
  {
    hide HasId, Additions, MergeMember, LastIndex;
    var updated := Updated(ms, blockId, next, dedupe);
    var k := LastIndex(updated, blockId) + 1;
    UpdatedIds(ms, blockId, next, dedupe, id);
    AddedIds(updated, next, id);
    HasIdConcat(updated[..k], Additions(updated, next), id);
    HasIdConcat(updated[..k] + Additions(updated, next), updated[k..], id);
    HasIdConcat(updated[..k], updated[k..], id);
    assert updated[..k] + updated[k..] == updated;
  }

  /** Position `j` holds the first source with this request. */
  predicate IsFirstSource(sources: seq<Source>, j: int, request: string) {
    && 0 <= j < |sources| && sources[j].request == request
    && forall k | 0 <= k < j :: sources[k].request != request
  }

  lemma {:induction false} FirstSource(sources: seq<Source>, request: string)
    ensures FindSource(sources, request).Some? ==>
              exists j | 0 <= j < |sources| :: IsFirstSource(sources, j, request) && sources[j] == FindSource(sources, request).value
  {
    if sources != [] && sources[0].request == request {
      assert IsFirstSource(sources, 0, request);
    } else if FindSource(sources, request).Some? {
      FirstSource(sources[1..], request);
      var j :| 0 <= j < |sources[1..]| && IsFirstSource(sources[1..], j, request)
               && sources[1..][j] == FindSource(sources[1..], request).value;
      assert forall k | 0 < k < j + 1 :: sources[k] == sources[1..][k - 1];
      assert IsFirstSource(sources, j + 1, request);
    }
  }

  /**
   A merged column has the sources of the page, in its order; each one known
   before has the cursor it had, the first one where several were.
   */
  lemma MergeKeepsCursors(m: Member, blockId: string, next: seq<Member>, dedupe: Dedupe)
    requires m.blockId == blockId && FindMember(next, m.id).Some?
    ensures var before, page, merged := m.section.sources, FindMember(next, m.id).value.section.sources,
                                        MergeMember(m, blockId, next, dedupe).section.sources;
            && |merged| == |page|
            && forall i | 0 <= i < |page| ::
                 && merged[i].request == page[i].request
                 && if exists j | 0 <= j < |before| :: before[j].request == page[i].request
                    then exists j | 0 <= j < |before| :: IsFirstSource(before, j, page[i].request) && merged[i] == before[j]
                    else merged[i] == page[i]
  {
    hide IsFirstSource;
    var before, page := m.section.sources, FindMember(next, m.id).value.section.sources;
    forall i | 0 <= i < |page|
      ensures FindSource(before, page[i].request).None? <==> forall j | 0 <= j < |before| :: before[j].request != page[i].request
      ensures FindSource(before, page[i].request).Some? ==>
                exists j | 0 <= j < |before| ::
                  IsFirstSource(before, j, page[i].request) && before[j] == FindSource(before, page[i].request).value
    {
      FirstSource(before, page[i].request);
    }
  }

  // --- The first load ------------------------------------------------------

  function Flat(lists: seq<seq<Member>>): seq<Member> {
    if lists == [] then [] else Flat(lists[..|lists| - 1]) + lists[|lists| - 1]
  }

  /** The lists of the blocks, one after the other. */
  ghost predicate ListsOf(blocks: seq<string>, lists: seq<seq<Member>>) {
    |lists| <= |blocks| && forall i | 0 <= i < |lists| :: BlockMembers(blocks[i], lists[i])
  }

  lemma {:induction false} RankOfAt(blocks: seq<string>, i: nat)
    requires Distinct(blocks) && i < |blocks|
    ensures Rank(blocks, blocks[i]) == i
  {
    if i > 0 {
      assert blocks[0] != blocks[i];
      RankOfAt(blocks[1..], i - 1);
    }
  }

  lemma {:induction false} FlatWellPlaced(blocks: seq<string>, lists: seq<seq<Member>>)
    requires Distinct(blocks) && ListsOf(blocks, lists)
    ensures WellPlaced(Flat(lists), blocks)
    ensures forall m | m in Flat(lists) :: Rank(blocks, m.blockId) < |lists|
  {
    hide MemberId, Rank;
    if lists != [] {
      var n := |lists| - 1;
      FlatWellPlaced(blocks, lists[..n]);
      RankOfAt(blocks, n);
      AppendWellPlaced(Flat(lists[..n]), lists[n], blocks, n);
    }
  }

  lemma AppendWellPlaced(ms: seq<Member>, more: seq<Member>, blocks: seq<string>, n: nat)
    requires n < |blocks| && Rank(blocks, blocks[n]) == n
    requires WellPlaced(ms, blocks) && BlockMembers(blocks[n], more) && forall m | m in ms :: Rank(blocks, m.blockId) < n
    ensures WellPlaced(ms + more, blocks)
    ensures forall m | m in ms + more :: Rank(blocks, m.blockId) < n + 1
  {
    hide MemberId, Rank, OwnId;
    forall i, j | 0 <= i < |ms| && 0 <= j < |more| ensures ms[i].id != more[j].id {
      assert ms[i] in ms;
      if ms[i].id == more[j].id {
        BlocksApart(ms[i], more[j]);
      }
    }
    AppendUnique(ms, more);
    AppendOrdered(ms, more, blocks, n);
  }

  /** Appended members have the rank of their block, the ones before a smaller one. */
  lemma AppendedRank(ms: seq<Member>, more: seq<Member>, blocks: seq<string>, n: nat, i: nat)
    requires n < |blocks| && Rank(blocks, blocks[n]) == n && Ordered(ms, blocks) && i < |ms + more|
    requires (forall k | 0 <= k < |more| :: more[k].blockId == blocks[n]) && forall m | m in ms :: Rank(blocks, m.blockId) < n
    ensures (ms + more)[i].blockId in blocks
    ensures if i < |ms| then (ms + more)[i] == ms[i] && Rank(blocks, ms[i].blockId) < n
            else Rank(blocks, (ms + more)[i].blockId) == n
  {
    hide Rank;
    if i < |ms| {
      assert ms[i] in ms;
    } else {
      assert (ms + more)[i] == more[i - |ms|];
    }
  }

  lemma AppendOrdered(ms: seq<Member>, more: seq<Member>, blocks: seq<string>, n: nat)
    requires n < |blocks| && Rank(blocks, blocks[n]) == n && Ordered(ms, blocks)
    requires (forall i | 0 <= i < |more| :: more[i].blockId == blocks[n]) && forall m | m in ms :: Rank(blocks, m.blockId) < n
    ensures Ordered(ms + more, blocks)
    ensures forall m | m in ms + more :: Rank(blocks, m.blockId) < n + 1
  {
    hide Rank;
    var t := ms + more;
    forall i | 0 <= i < |t|
      ensures t[i].blockId in blocks && Rank(blocks, t[i].blockId) <= n
      ensures if i < |ms| then t[i] == ms[i] && Rank(blocks, ms[i].blockId) < n else Rank(blocks, t[i].blockId) == n
    {
      AppendedRank(ms, more, blocks, n, i);
    }
    OrderedByRank(ms, t, blocks, n);
  }

  lemma OrderedByRank(ms: seq<Member>, t: seq<Member>, blocks: seq<string>, n: nat)
    requires Ordered(ms, blocks) && |ms| <= |t|
    requires forall i | 0 <= i < |t| :: t[i].blockId in blocks && Rank(blocks, t[i].blockId) <= n
    requires forall i | 0 <= i < |t| :: if i < |ms| then t[i] == ms[i] else Rank(blocks, t[i].blockId) == n
    ensures Ordered(t, blocks)
  {
    hide Rank;
  }
}
