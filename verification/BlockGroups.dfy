/**
 Editor groups of custom home blocks (customHomeBlockGroups.ts) and list moves
 (customHomeDraft.ts).
 */
module BlockGroups {
  import opened Wrappers
  import opened StableGrouping
  import opened TextUtils

  datatype Reference = Reference(sourceId: string, key: string, labelSnapshot: Option<string>)

  type DisplayOptions = map<string, string>

  datatype Block = Block(
    id: string,
    reference: Reference,
    titleOverride: Option<string>,
    displayOptions: Option<DisplayOptions>)

  datatype BlockGroup = BlockGroup(key: string, title: Option<string>, blocks: seq<Block>)

  /** How titles are folded to keys; Unicode normalisation and case stay abstract. */
  type TitleKey = Option<string> -> string

  // --- Keys ----------------------------------------------------------------

  function EffectiveTitle(b: Block): Option<string> {
    if b.titleOverride.Some? && Trim(b.titleOverride.value) != "" then Some(Trim(b.titleOverride.value))
    else b.reference.labelSnapshot
  }

  function BlockKey(titleKey: TitleKey, merge: bool): Block -> string {
    (b: Block) =>
      if merge && titleKey(EffectiveTitle(b)) != "" then "title:" + titleKey(EffectiveTitle(b)) else "block:" + b.id
  }

  ghost predicate DistinctIds(blocks: seq<Block>) {
    forall i, j | 0 <= i < j < |blocks| :: blocks[i].id != blocks[j].id
  }

  /** The buckets as the editor sees them: the title is that of the first member. */
  function Presented(gs: seq<Bucket<Block, string>>): seq<BlockGroup>
    requires forall i | 0 <= i < |gs| :: gs[i].items != []
  {
    seq(|gs|, i requires 0 <= i < |gs| => BlockGroup(gs[i].key, EffectiveTitle(gs[i].items[0]), gs[i].items))
  }

  method GroupCustomHomeBlocks(titleKey: TitleKey, blocks: seq<Block>, merge: bool) returns (groups: seq<BlockGroup>)
    ensures forall i | 0 <= i < |GroupBy(blocks, BlockKey(titleKey, merge))| ::
              GroupBy(blocks, BlockKey(titleKey, merge))[i].items != []
    ensures groups == Presented(GroupBy(blocks, BlockKey(titleKey, merge)))
  {
    ghost var key := BlockKey(titleKey, merge);
    var order: seq<string>, table: map<string, seq<Block>> := [], map[];
    NothingHeld(key);
    hide GroupBy, MapHolds;
    assert blocks[..0] == [];
    for n := 0 to |blocks|
      invariant MapHolds(order, table, GroupBy(blocks[..n], key))
    {
      var block := blocks[n];
      var title := EffectiveTitle(block);
      var k := if merge && titleKey(title) != "" then "title:" + titleKey(title) else "block:" + block.id;
      HeldNext(blocks, n, key, order, table);
      if k !in table {
        order := order + [k];
        table := table[k := [block]];
      } else {
        table := table[k := table[k] + [block]];
      }
    }
    AllHeld(blocks, key, order, table);
    groups := seq(|order|, i requires 0 <= i < |order| && order[i] in table && table[order[i]] != [] =>
      BlockGroup(order[i], EffectiveTitle(table[order[i]][0]), table[order[i]]));
  }

  // --- Moves ---------------------------------------------------------------

  predicate CanMove(length: nat, index: int, direction: int) {
    0 <= index < length && 0 <= index + direction < length
  }

  function MoveItem<T>(items: seq<T>, index: int, direction: int): (r: seq<T>)
    ensures |r| == |items|
  {
    var target := index + direction;
    if CanMove(|items|, index, direction) then items[index := items[target]][target := items[index]] else items
  }

  /** Position of the block with this id, or -1. */
  function IndexOf(blocks: seq<Block>, id: string): (i: int)
    ensures -1 <= i < |blocks|
    ensures i >= 0 ==> blocks[i].id == id
    ensures i < 0 ==> forall j | 0 <= j < |blocks| :: blocks[j].id != id
  {
    if blocks == [] then -1
    else if blocks[0].id == id then 0
    else var rest := IndexOf(blocks[1..], id); if rest < 0 then -1 else rest + 1
  }

  type Buckets = seq<Bucket<Block, string>>

  /** Position of the group holding the block with this id, or -1. */
  function IndexOfGroup(gs: Buckets, id: string): (i: int)
    ensures -1 <= i < |gs|
    ensures i >= 0 ==> IndexOf(gs[i].items, id) >= 0
    ensures i < 0 ==> forall j | 0 <= j < |gs| :: IndexOf(gs[j].items, id) < 0
  {
    if gs == [] then -1
    else if IndexOf(gs[0].items, id) >= 0 then 0
    else var rest := IndexOfGroup(gs[1..], id); if rest < 0 then -1 else rest + 1
  }

  /** The groups after moving group `g`, or the member with this id inside it. */
  function MoveInGroups(gs: Buckets, g: int, id: string, direction: int, wholeGroup: bool): Buckets
    requires 0 <= g < |gs|
  {
    if wholeGroup then MoveItem(gs, g, direction)
    else gs[g := gs[g].(items := MoveItem(gs[g].items, IndexOf(gs[g].items, id), direction))]
  }

  function MoveBlock(titleKey: TitleKey, blocks: seq<Block>, merge: bool, id: string,
                     direction: int, wholeGroup: bool): seq<Block>
  {
    if !merge then MoveItem(blocks, IndexOf(blocks, id), direction)
    else
      var gs := GroupBy(blocks, BlockKey(titleKey, true));
      var g := IndexOfGroup(gs, id);
      if g < 0 then blocks else Flatten(MoveInGroups(gs, g, id, direction, wholeGroup))
  }

  /** The position that decides whether the move is off an edge. */
  function Moves(titleKey: TitleKey, blocks: seq<Block>, merge: bool, id: string,
                 direction: int, wholeGroup: bool): bool
  {
    if !merge then CanMove(|blocks|, IndexOf(blocks, id), direction)
    else
      var gs := GroupBy(blocks, BlockKey(titleKey, true));
      var g := IndexOfGroup(gs, id);
      g >= 0 &&
      if wholeGroup then CanMove(|gs|, g, direction)
      else CanMove(|gs[g].items|, IndexOf(gs[g].items, id), direction)
  }

  // --- Identities ----------------------------------------------------------

  lemma SameIdSameBlock(blocks: seq<Block>, a: Block, b: Block)
    requires DistinctIds(blocks) && a in blocks && b in blocks && a.id == b.id
    ensures a == b
  {
  }

  lemma {:induction false} MembersDistinct(blocks: seq<Block>, key: Block -> string, k: string)
    requires DistinctIds(blocks)
    ensures DistinctIds(Members(blocks, key, k))
  {
    if blocks != [] {
      var n := |blocks| - 1;
      MembersDistinct(blocks[..n], key, k);
      MembersFrom(blocks[..n], key, k);
      assert forall x | x in blocks[..n] :: x.id != blocks[n].id;
    }
  }

  /** The id occurs in one group only, and once in it. */
  lemma GroupOfId(blocks: seq<Block>, key: Block -> string, id: string)
    requires DistinctIds(blocks)
    ensures var gs := GroupBy(blocks, key);
            && (forall i | 0 <= i < |gs| :: DistinctIds(gs[i].items))
            && (forall i, j | 0 <= i < |gs| && 0 <= j < |gs| && IndexOf(gs[i].items, id) >= 0
                              && IndexOf(gs[j].items, id) >= 0 :: i == j)
  {
    var gs := GroupBy(blocks, key);
    GroupsAreWellGrouped(blocks, key);
    forall i | 0 <= i < |gs|
      ensures DistinctIds(gs[i].items) && forall x | x in gs[i].items :: x in blocks
    {
      MembersDistinct(blocks, key, gs[i].key);
      MembersFrom(blocks, key, gs[i].key);
    }
    forall i, j | 0 <= i < |gs| && 0 <= j < |gs| && IndexOf(gs[i].items, id) >= 0 && IndexOf(gs[j].items, id) >= 0
      ensures i == j
    {
      var a, b := gs[i].items[IndexOf(gs[i].items, id)], gs[j].items[IndexOf(gs[j].items, id)];
      assert a in gs[i].items && b in gs[j].items;
      SameIdSameBlock(blocks, a, b);
      assert gs[i].key == key(a) == gs[j].key;
    }
  }

  // --- Main results --------------------------------------------------------

  lemma {:induction false} SwapNeighbours(gs: Buckets, i: nat)
    requires i + 1 < |gs|
    ensures var r := gs[i := gs[i + 1]][i + 1 := gs[i]]; multiset(Flatten(r)) == multiset(Flatten(gs))
  {
    var r := gs[i := gs[i + 1]][i + 1 := gs[i]];
    var before, after := gs[..i], gs[i + 2..];
    assert gs == before + [gs[i]] + [gs[i + 1]] + after && r == before + [gs[i + 1]] + [gs[i]] + after;
    FlattenConcat(before + [gs[i]] + [gs[i + 1]], after);
    FlattenConcat(before + [gs[i]], [gs[i + 1]]);
    FlattenConcat(before, [gs[i]]);
    FlattenConcat(before + [gs[i + 1]] + [gs[i]], after);
    FlattenConcat(before + [gs[i + 1]], [gs[i]]);
    FlattenConcat(before, [gs[i + 1]]);
  }

  lemma ReplaceItems(gs: Buckets, i: nat, items: seq<Block>)
    requires i < |gs| && multiset(items) == multiset(gs[i].items)
    ensures multiset(Flatten(gs[i := gs[i].(items := items)])) == multiset(Flatten(gs))
  {
    var before, after, b := gs[..i], gs[i + 1..], gs[i].(items := items);
    assert gs == before + [gs[i]] + after && gs[i := b] == before + [b] + after;
    FlattenConcat(before + [gs[i]], after);
    FlattenConcat(before, [gs[i]]);
    FlattenConcat(before + [b], after);
    FlattenConcat(before, [b]);
    assert [gs[i]][..0] == [] && [b][..0] == [];
  }

  lemma SwapKeepsWellGrouped(gs: Buckets, key: Block -> string, i: nat, j: nat)
    requires WellGrouped(gs, key) && i < |gs| && j < |gs|
    ensures WellGrouped(gs[i := gs[j]][j := gs[i]], key)
  {
    var r := gs[i := gs[j]][j := gs[i]];
    assert forall k | 0 <= k < |gs| :: r[k] == gs[if k == j then i else if k == i then j else k];
  }

  lemma MovedGroup(gs: Buckets, key: Block -> string, g: int, direction: int)
    requires WellGrouped(gs, key) && 0 <= g < |gs| && (direction == 1 || direction == -1)
    ensures WellGrouped(MoveItem(gs, g, direction), key)
    ensures multiset(Flatten(MoveItem(gs, g, direction))) == multiset(Flatten(gs))
  {
    hide WellGrouped, Flatten;
    if CanMove(|gs|, g, direction) {
      SwapKeepsWellGrouped(gs, key, g, g + direction);
      var i := if direction == 1 then g else g - 1;
      SwapNeighbours(gs, i);
      assert MoveItem(gs, g, direction) == gs[i := gs[i + 1]][i + 1 := gs[i]];
    }
  }

  lemma MovedMember(gs: Buckets, key: Block -> string, g: int, m: int, direction: int)
    requires WellGrouped(gs, key) && 0 <= g < |gs|
    ensures var r := gs[g := gs[g].(items := MoveItem(gs[g].items, m, direction))];
            WellGrouped(r, key) && multiset(Flatten(r)) == multiset(Flatten(gs))
  {
    var items := MoveItem(gs[g].items, m, direction);
    assert multiset(items) == multiset(gs[g].items);
    assert Uniform(items, key, gs[g].key);
    ReplaceItems(gs, g, items);
  }

  lemma MovedGroupsWellGrouped(gs: Buckets, key: Block -> string, g: int, id: string, direction: int, wholeGroup: bool)
    requires WellGrouped(gs, key) && 0 <= g < |gs| && (direction == 1 || direction == -1)
    ensures var r := MoveInGroups(gs, g, id, direction, wholeGroup);
            WellGrouped(r, key) && multiset(Flatten(r)) == multiset(Flatten(gs))
  {
    if wholeGroup {
      MovedGroup(gs, key, g, direction);
    } else {
      MovedMember(gs, key, g, IndexOf(gs[g].items, id), direction);
    }
  }

  /**
   Moving a group or a member in merged mode permutes the blocks, keeps every
   group contiguous, and regrouping the result shows the same groups with exactly
   the two neighbours exchanged.
   */
  lemma MergedMoveExchangesNeighbours(titleKey: TitleKey, blocks: seq<Block>, id: string, direction: int, wholeGroup: bool)
    requires direction == 1 || direction == -1
    ensures var key, r := BlockKey(titleKey, true), MoveBlock(titleKey, blocks, true, id, direction, wholeGroup);
            var gs := GroupBy(blocks, key);
            var g := IndexOfGroup(gs, id);
            && multiset(r) == multiset(blocks)
            && (g >= 0 ==> Contiguous(r, key) && GroupBy(r, key) == MoveInGroups(gs, g, id, direction, wholeGroup))
            && (g < 0 ==> r == blocks)
  {
    var key := BlockKey(titleKey, true);
    var gs := GroupBy(blocks, key);
    var g := IndexOfGroup(gs, id);
    if g >= 0 {
      GroupsAreWellGrouped(blocks, key);
      GroupingIsPermutation(blocks, key);
      MovedGroupsWellGrouped(gs, key, g, id, direction, wholeGroup);
      GroupByFlatten(MoveInGroups(gs, g, id, direction, wholeGroup), key);
      FlattenContiguous(MoveInGroups(gs, g, id, direction, wholeGroup), key);
    }
  }

  /** After a move that is not off an edge, the target is one position further. */
  lemma TargetMoved(items: seq<Block>, id: string, direction: int)
    requires DistinctIds(items) && CanMove(|items|, IndexOf(items, id), direction)
    ensures IndexOf(MoveItem(items, IndexOf(items, id), direction), id) == IndexOf(items, id) + direction
    ensures MoveItem(MoveItem(items, IndexOf(items, id), direction), IndexOf(items, id) + direction, -direction) == items
  {
    var m := IndexOf(items, id);
    var moved := MoveItem(items, m, direction);
    hide IndexOf;
    assert moved[m + direction].id == id;
    assert forall i | 0 <= i < |moved| && i != m + direction :: moved[i].id != id;
  }

  /** Only group `g` holds the id. */
  ghost predicate OnlyGroup(gs: Buckets, g: int, id: string) {
    && 0 <= g < |gs| && IndexOf(gs[g].items, id) >= 0
    && forall i | 0 <= i < |gs| && i != g :: IndexOf(gs[i].items, id) < 0
  }

  lemma GroupMovesBack(gs: Buckets, g: int, id: string, direction: int)
    requires OnlyGroup(gs, g, id) && CanMove(|gs|, g, direction) && direction != 0
    ensures var hs := MoveItem(gs, g, direction);
            IndexOfGroup(hs, id) == g + direction && MoveItem(hs, g + direction, -direction) == gs
  {
    var hs := MoveItem(gs, g, direction);
    assert hs[g + direction] == gs[g] && hs[g] == gs[g + direction];
    assert OnlyGroup(hs, g + direction, id);
    assert MoveItem(hs, g + direction, -direction) == gs;
  }

  lemma MemberMovesBack(gs: Buckets, g: int, id: string, direction: int)
    requires OnlyGroup(gs, g, id) && DistinctIds(gs[g].items)
    requires CanMove(|gs[g].items|, IndexOf(gs[g].items, id), direction)
    ensures var hs := MoveInGroups(gs, g, id, direction, false);
            IndexOfGroup(hs, id) == g && MoveInGroups(hs, g, id, -direction, false) == gs
  {
    var hs := MoveInGroups(gs, g, id, direction, false);
    TargetMoved(gs[g].items, id, direction);
    assert OnlyGroup(hs, g, id);
    assert MoveInGroups(hs, g, id, -direction, false) == gs;
  }

  lemma MergedMoveRestores(titleKey: TitleKey, blocks: seq<Block>, id: string, direction: int, wholeGroup: bool)
    requires DistinctIds(blocks) && (direction == 1 || direction == -1)
    requires Moves(titleKey, blocks, true, id, direction, wholeGroup)
    ensures var moved := MoveBlock(titleKey, blocks, true, id, direction, wholeGroup);
            MoveBlock(titleKey, moved, true, id, -direction, wholeGroup)
            == Flatten(GroupBy(blocks, BlockKey(titleKey, true)))
  {
    hide GroupBy, Flatten, BlockKey;
    var gs := GroupBy(blocks, BlockKey(titleKey, true));
    var g := IndexOfGroup(gs, id);
    MergedMoveExchangesNeighbours(titleKey, blocks, id, direction, wholeGroup);
    GroupOfId(blocks, BlockKey(titleKey, true), id);
    assert OnlyGroup(gs, g, id);
    if wholeGroup {
      GroupMovesBack(gs, g, id, direction);
    } else {
      MemberMovesBack(gs, g, id, direction);
    }
  }

  /**
   The opposite move undoes a move that is not off an edge: it restores the
   grouped order in merged mode, and the very list otherwise.
   */
  lemma OppositeMoveRestores(titleKey: TitleKey, blocks: seq<Block>, merge: bool, id: string,
                             direction: int, wholeGroup: bool)
    requires DistinctIds(blocks) && (direction == 1 || direction == -1)
    requires Moves(titleKey, blocks, merge, id, direction, wholeGroup)
    ensures var moved := MoveBlock(titleKey, blocks, merge, id, direction, wholeGroup);
            MoveBlock(titleKey, moved, merge, id, -direction, wholeGroup)
            == if merge then Flatten(GroupBy(blocks, BlockKey(titleKey, true))) else blocks
  {
    hide GroupBy, Flatten, BlockKey;
    if !merge {
      TargetMoved(blocks, id, direction);
    } else {
      MergedMoveRestores(titleKey, blocks, id, direction, wholeGroup);
    }
  }

  // --- Display options of a group ------------------------------------------

  function Patched(b: Block, patch: DisplayOptions): Block {
    b.(displayOptions := Some(b.displayOptions.GetOr(map[]) + patch))
  }

  function UpdateGroupDisplay(titleKey: TitleKey, blocks: seq<Block>, merge: bool, id: string,
                              patch: DisplayOptions): (r: seq<Block>)
    ensures |r| == |blocks|
  {
    var gs := GroupBy(blocks, BlockKey(titleKey, merge));
    var g := IndexOfGroup(gs, id);
    seq(|blocks|, i requires 0 <= i < |blocks| =>
      if g >= 0 && IndexOf(gs[g].items, blocks[i].id) >= 0 then Patched(blocks[i], patch) else blocks[i])
  }

  /** The index of a block's group is the one with its key. */
  lemma GroupIndexOfBlock(blocks: seq<Block>, key: Block -> string, m: nat)
    requires DistinctIds(blocks) && m < |blocks|
    ensures var gs := GroupBy(blocks, key); var g := IndexOfGroup(gs, blocks[m].id);
            g >= 0 && gs[g].key == key(blocks[m])
  {
    var gs := GroupBy(blocks, key);
    KeysOccur(blocks, key, key(blocks[m]));
    var j :| 0 <= j < |gs| && FirstKeys(blocks, key)[j] == key(blocks[m]);
    MembersHoldAll(blocks, key, m);
    assert IndexOf(gs[j].items, blocks[m].id) >= 0;
    GroupOfId(blocks, key, blocks[m].id);
  }

  /** Membership in the group of block `m` is having its key. */
  lemma InGroupIffSameKey(blocks: seq<Block>, key: Block -> string, m: nat, i: nat)
    requires DistinctIds(blocks) && m < |blocks| && i < |blocks|
    ensures var gs := GroupBy(blocks, key); var g := IndexOfGroup(gs, blocks[m].id);
            g >= 0 && (IndexOf(gs[g].items, blocks[i].id) >= 0 <==> key(blocks[i]) == key(blocks[m]))
  {
    var gs := GroupBy(blocks, key);
    var g := IndexOfGroup(gs, blocks[m].id);
    GroupIndexOfBlock(blocks, key, m);
    if IndexOf(gs[g].items, blocks[i].id) >= 0 {
      GroupsAreWellGrouped(blocks, key);
      var b := gs[g].items[IndexOf(gs[g].items, blocks[i].id)];
      MembersFrom(blocks, key, gs[g].key);
      assert b in gs[g].items;
      SameIdSameBlock(blocks, b, blocks[i]);
    } else {
      MembersHoldAll(blocks, key, i);
    }
  }

  lemma UpdatedBlock(titleKey: TitleKey, blocks: seq<Block>, merge: bool, m: nat, i: nat, patch: DisplayOptions)
    requires DistinctIds(blocks) && m < |blocks| && i < |blocks|
    ensures var key := BlockKey(titleKey, merge);
            var b := UpdateGroupDisplay(titleKey, blocks, merge, blocks[m].id, patch)[i];
            && b == (if key(blocks[i]) == key(blocks[m]) then Patched(blocks[i], patch) else blocks[i])
            && key(b) == key(blocks[i])
  {
    InGroupIffSameKey(blocks, BlockKey(titleKey, merge), m, i);
    assert EffectiveTitle(Patched(blocks[i], patch)) == EffectiveTitle(blocks[i]);
  }

  /**
   Editing a group's display options changes exactly the blocks that share the
   edited block's key, adds the patch over their own options, and regroups to the
   same keys.
   */
  lemma DisplayUpdateStaysInGroup(titleKey: TitleKey, blocks: seq<Block>, merge: bool, m: nat, patch: DisplayOptions)
    requires DistinctIds(blocks) && m < |blocks|
    ensures var key := BlockKey(titleKey, merge);
            var r := UpdateGroupDisplay(titleKey, blocks, merge, blocks[m].id, patch);
            && (forall i | 0 <= i < |blocks| ::
                 r[i] == if key(blocks[i]) == key(blocks[m]) then Patched(blocks[i], patch) else blocks[i])
            && FirstKeys(r, key) == FirstKeys(blocks, key)
  {
    forall i | 0 <= i < |blocks| {
      UpdatedBlock(titleKey, blocks, merge, m, i, patch);
    }
    SameKeysSameOrder(blocks, UpdateGroupDisplay(titleKey, blocks, merge, blocks[m].id, patch),
                      BlockKey(titleKey, merge));
  }

  lemma {:induction false} SameKeysSameOrder<T, K>(xs: seq<T>, ys: seq<T>, key: T -> K)
    requires |xs| == |ys| && forall i | 0 <= i < |xs| :: key(xs[i]) == key(ys[i])
    ensures FirstKeys(xs, key) == FirstKeys(ys, key)
  {
    if xs != [] {
      SameKeysSameOrder(xs[..|xs| - 1], ys[..|ys| - 1], key);
    }
  }
}
