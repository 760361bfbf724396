/**
 Runs of the custom home store (customHomes.ts).

 Any number of tabs save, delete and reorder, in any order, each with what it
 read at some earlier time. `seen` keeps every version that was ever stored.
 Two kinds of calls can break the invariant: the creation of a home whose id and
 revision were seen before, and a reorder that writes names whose slugs clash.
 */
module CustomHomeRuns {
  import opened Wrappers
  import opened TextUtils
  import opened CustomHomes
  import opened Sequences
  import opened Sorting

  datatype State = State(store: Store, seen: set<Home>)

  datatype Step =
    | SaveStep(definition: Value, expected: Option<int>, now: int)
    | DeleteStep(id: string, revision: int)
    | ReorderStep(snapshots: seq<Value>, clock: nat -> int)

  function Attempt(slug: string -> string, store: Store, step: Step): Result<Store, Error> {
    match step
    case SaveStep(definition, expected, now) => Save(slug, store, definition, expected, now)
    case DeleteStep(id, expected) => Delete(slug, store, id, expected)
    case ReorderStep(snapshots, clock) => Reorder(store, snapshots, clock)
  }

  function HomesOf(store: Store): set<Home> {
    set id | id in store && store[id].Readable? :: store[id].home
  }

  /** Every version seen under the id of `h` is `h` itself or older. */
  predicate FitsSeen(s: State, h: Home) {
    forall g | g in s.seen && g.id == h.id :: g == h || g.updatedAt < h.updatedAt
  }

  /** The name a reorder leaves under the id of the snapshot at position `i`. */
  function WrittenName(store: Store, homes: seq<Home>, i: nat): string
    requires i < |homes|
  {
    var h := homes[i];
    if h.navigationOrder == i && h.id in store && store[h.id].Readable? then store[h.id].home.name else h.name
  }

  ghost predicate WrittenSlugsDistinct(slug: string -> string, store: Store, homes: seq<Home>) {
    forall i, j | 0 <= i < j < |homes| :: slug(WrittenName(store, homes, i)) != slug(WrittenName(store, homes, j))
  }

  ghost predicate WrittenSlugsNonempty(slug: string -> string, store: Store, homes: seq<Home>) {
    forall i | 0 <= i < |homes| :: slug(WrittenName(store, homes, i)) != []
  }

  /** No array of snapshots is longer than the language allows. */
  predicate Possible(step: Step) {
    step.ReorderStep? ==> |step.snapshots| <= MAX_LENGTH
  }

  /** An accepted creation fits what was seen, and an accepted reorder writes names with distinct, non-empty slugs. */
  ghost predicate Harmless(slug: string -> string, s: State, step: Step) {
    match step
    case SaveStep(definition, expected, now) =>
      expected.None? && Save(slug, s.store, definition, expected, now).Ok? && Validate(definition).Some? ==>
        FitsSeen(s, Committed(None, Validate(definition).value, now))
    case DeleteStep(_, _) => true
    case ReorderStep(snapshots, _) =>
      var checked := CheckOrder(s.store, snapshots);
      checked.Ok? ==>
        WrittenSlugsDistinct(slug, s.store, checked.value) && WrittenSlugsNonempty(slug, s.store, checked.value)
  }

  function Apply(slug: string -> string, s: State, step: Step): State {
    match Attempt(slug, s.store, step)
    case Ok(t) => State(t, s.seen + HomesOf(t))
    case Err(_) => s
  }

  ghost predicate Run(slug: string -> string, s: State, steps: seq<Step>, t: State)
    decreases |steps|
  {
    if steps == [] then s == t
    else Possible(steps[0]) && Harmless(slug, s, steps[0]) && Run(slug, Apply(slug, s, steps[0]), steps[1..], t)
  }

  // --- The invariant -------------------------------------------------------

  predicate Sound(slug: string -> string, h: Home) {
    WellFormed(h) && Trim(h.name) == h.name && slug(h.name) != []
  }

  ghost predicate Live(slug: string -> string, s: State) {
    forall id | id in s.store && s.store[id].Readable? ::
      var h := s.store[id].home; h.id == id && Sound(slug, h) && h in s.seen
  }

  ghost predicate SlugsDistinct(slug: string -> string, store: Store) {
    forall a, b | a in store && b in store && a != b && NameOf(store[a]).Some? && NameOf(store[b]).Some? ::
      slug(NameOf(store[a]).value) != slug(NameOf(store[b]).value)
  }

  /** A live record is newer than every other version of it. */
  ghost predicate Newest(s: State) {
    forall h | h in s.seen && h.id in s.store && s.store[h.id].Readable? ::
      h == s.store[h.id].home || h.updatedAt < s.store[h.id].home.updatedAt
  }

  /** Id and revision determine the content. */
  ghost predicate VersionsUnique(s: State) {
    forall g, h | g in s.seen && h in s.seen && g.id == h.id && g.updatedAt == h.updatedAt :: g == h
  }

  ghost predicate Inv(slug: string -> string, s: State) {
    Live(slug, s) && SlugsDistinct(slug, s.store) && Newest(s) && VersionsUnique(s)
  }

  lemma CurrentIsStored(slug: string -> string, s: State, id: string)
    requires Live(slug, s) && Current(s.store, id).Some?
    ensures id in s.store && s.store[id] == Readable(Current(s.store, id).value)
    ensures Current(s.store, id).value in s.seen && Current(s.store, id).value.id == id
  {
    hide WellFormed, Trim;
  }

  // --- Saves ---------------------------------------------------------------

  lemma PutHomes(store: Store, h: Home)
    ensures h in HomesOf(store[h.id := Readable(h)])
    ensures HomesOf(store[h.id := Readable(h)]) <= HomesOf(store) + {h}
  {
    var t := store[h.id := Readable(h)];
    assert t[h.id].home == h;
    forall g | g in HomesOf(t) ensures g in HomesOf(store) + {h} {
      var id :| id in t && t[id].Readable? && t[id].home == g;
      assert id != h.id ==> store[id].home == g;
    }
  }

  lemma HomesSeen(slug: string -> string, s: State)
    requires Live(slug, s)
    ensures HomesOf(s.store) <= s.seen
  {
  }

  lemma PutKeepsVersions(slug: string -> string, s: State, h: Home)
    requires Inv(slug, s) && FitsSeen(s, h)
    ensures var t := s.store[h.id := Readable(h)]; Newest(State(t, s.seen + HomesOf(t)))
    ensures var t := s.store[h.id := Readable(h)]; VersionsUnique(State(t, s.seen + HomesOf(t)))
  {
    hide Sound, SlugsDistinct, HomesOf;
    var t := s.store[h.id := Readable(h)];
    PutHomes(s.store, h);
    HomesSeen(slug, s);
    assert s.seen + HomesOf(t) == s.seen + {h};
  }

  lemma PutKeepsLive(slug: string -> string, s: State, h: Home)
    requires Live(slug, s) && Sound(slug, h)
    ensures var t := s.store[h.id := Readable(h)]; Live(slug, State(t, s.seen + HomesOf(t)))
  {
    hide Sound, HomesOf;
    PutHomes(s.store, h);
  }

  lemma PutKeepsSlugs(slug: string -> string, store: Store, h: Home)
    requires SlugsDistinct(slug, store) && !IsSlugTaken(slug, store, h.id, h.name)
    ensures SlugsDistinct(slug, store[h.id := Readable(h)])
  {
    forall other | other in store && other != h.id && NameOf(store[other]).Some?
      ensures slug(NameOf(store[other]).value) != slug(h.name)
    {
      assert !TakenBy(slug, store, other, h.id, h.name);
    }
  }

  /** What a committed record is, seen from the draft and the record it replaces. */
  lemma CommittedRecord(slug: string -> string, store: Store, current: Option<Home>, v: Value, draft: Home, now: int)
    requires Validate(v) == Some(draft) && slug(draft.name) != [] && Commit(slug, store, current, draft, now).Ok?
    ensures var h := Commit(slug, store, current, draft, now).value;
            && h == Committed(current, draft, now) && Sound(slug, h)
            && !IsSlugTaken(slug, store, h.id, h.name)
  {
    hide WellFormed, Trim, IsSlugTaken, NewRevision;
  }

  /** A passed comparison tells that the record is at the expected revision, or that there is none. */
  lemma Compared(store: Store, id: string, expected: Option<int>)
    requires Compare(store, id, expected).Ok?
    ensures var current := Compare(store, id, expected).value;
            && current == Current(store, id)
            && (if expected.Some? then current.Some? && current.value.updatedAt == expected.value
                else current.None? && id !in store)
  {
    hide Validate, Trim;
  }

  lemma CurrentIsNewest(slug: string -> string, s: State, id: string)
    requires Live(slug, s) && Newest(s) && Current(s.store, id).Some?
    ensures forall g | g in s.seen && g.id == id :: g.updatedAt <= Current(s.store, id).value.updatedAt
  {
    hide Validate, Sound, Current;
    CurrentIsStored(slug, s, id);
  }

  /** The record a save commits over a current one is newer than every version of it seen. */
  lemma CommittedFits(slug: string -> string, s: State, current: Option<Home>, draft: Home, now: int)
    requires Live(slug, s) && Newest(s) && Current(s.store, draft.id) == current && current.Some?
    ensures FitsSeen(s, Committed(current, draft, now))
  {
    hide Live, Newest, Current;
    CurrentIsNewest(slug, s, draft.id);
  }

  lemma SaveIsPut(slug: string -> string, s: State, v: Value, expected: Option<int>, now: int)
    requires Save(slug, s.store, v, expected, now).Ok?
    ensures Validate(v).Some? && slug(Validate(v).value.name) != []
    ensures var draft := Validate(v).value; Compare(s.store, draft.id, expected).Ok?
    ensures var draft := Validate(v).value; Commit(slug, s.store, Compare(s.store, draft.id, expected).value, draft, now).Ok?
    ensures var draft := Validate(v).value;
            var h := Commit(slug, s.store, Compare(s.store, draft.id, expected).value, draft, now).value;
            Save(slug, s.store, v, expected, now).value == s.store[h.id := Readable(h)]
  {
    hide Validate, Compare, Commit;
  }

  /** An accepted save puts one sound record, the committed one, under a slug that is free. */
  lemma SavePuts(slug: string -> string, s: State, v: Value, expected: Option<int>, now: int)
    requires Inv(slug, s) && Save(slug, s.store, v, expected, now).Ok?
    ensures Validate(v).Some?
    ensures var current, draft := Current(s.store, Validate(v).value.id), Validate(v).value;
            var h := Committed(current, draft, now);
            && Save(slug, s.store, v, expected, now).value == s.store[h.id := Readable(h)]
            && Sound(slug, h) && !IsSlugTaken(slug, s.store, h.id, h.name)
            && (expected.Some? <==> current.Some?)
  {
    hide Inv, Compare, Commit, Save, Validate, WellFormed, Sound, IsSlugTaken, Committed, Current;
    SaveIsPut(slug, s, v, expected, now);
    var draft := Validate(v).value;
    Compared(s.store, draft.id, expected);
    CommittedRecord(slug, s.store, Compare(s.store, draft.id, expected).value, v, draft, now);
  }

  lemma PutKeepsIff(slug: string -> string, s: State, h: Home)
    requires Inv(slug, s) && Sound(slug, h) && !IsSlugTaken(slug, s.store, h.id, h.name)
    ensures var t := s.store[h.id := Readable(h)]; Inv(slug, State(t, s.seen + HomesOf(t))) <==> FitsSeen(s, h)
  {
    hide Live, VersionsUnique, Sound, HomesOf, SlugsDistinct, IsSlugTaken;
    if FitsSeen(s, h) {
      PutKeepsVersions(slug, s, h);
      PutKeepsLive(slug, s, h);
      PutKeepsSlugs(slug, s.store, h);
    }
  }

  /** A save over a record keeps the invariant. */
  lemma UpdateKeeps(slug: string -> string, s: State, v: Value, expected: int, now: int)
    requires Inv(slug, s) && Save(slug, s.store, v, Some(expected), now).Ok?
    ensures var t := Save(slug, s.store, v, Some(expected), now).value; Inv(slug, State(t, s.seen + HomesOf(t)))
  {
    hide Save, Validate, Live, Newest, Sound, HomesOf, SlugsDistinct, VersionsUnique, IsSlugTaken, Committed, Current, FitsSeen;
    SavePuts(slug, s, v, Some(expected), now);
    var draft := Validate(v).value;
    var current := Current(s.store, draft.id);
    CommittedFits(slug, s, current, draft, now);
    PutKeepsIff(slug, s, Committed(current, draft, now));
  }

  /**
   Creating a home, under a new id or a deleted one, keeps the invariant exactly
   when every version seen under its id is the new record itself or older.
   */
  lemma CreationKeepsIff(slug: string -> string, s: State, v: Value, now: int)
    requires Inv(slug, s) && Save(slug, s.store, v, None, now).Ok?
    ensures Validate(v).Some?
    ensures var t := Save(slug, s.store, v, None, now).value;
            Inv(slug, State(t, s.seen + HomesOf(t))) <==> FitsSeen(s, Committed(None, Validate(v).value, now))
  {
    hide Inv, Save, Validate, Sound, HomesOf, IsSlugTaken, Committed, Current, FitsSeen;
    SavePuts(slug, s, v, None, now);
    PutKeepsIff(slug, s, Committed(None, Validate(v).value, now));
  }

  // --- Deletions -----------------------------------------------------------

  lemma DeleteKeeps(slug: string -> string, s: State, id: string, expected: int)
    requires Inv(slug, s) && Delete(slug, s.store, id, expected).Ok?
    ensures var t := Delete(slug, s.store, id, expected).value; Inv(slug, State(t, s.seen + HomesOf(t)))
  {
    hide Compare, Sound;
    var t := s.store - {id};
    assert HomesOf(t) <= HomesOf(s.store);
    HomesSeen(slug, s);
    assert s.seen + HomesOf(t) == s.seen;
  }

  // --- Reorders ------------------------------------------------------------

  /** Some records became newer under their ids; nothing else changed. */
  ghost predicate Advances(slug: string -> string, store: Store, t: Store) {
    && t.Keys == store.Keys
    && forall id | id in store && t[id] != store[id] ::
         && store[id].Readable? && t[id].Readable?
         && t[id].home.id == id
         && store[id].home.updatedAt < t[id].home.updatedAt
         && Sound(slug, t[id].home)
  }

  lemma AdvanceKeepsLive(slug: string -> string, s: State, t: Store)
    requires Live(slug, s) && Advances(slug, s.store, t)
    ensures Live(slug, State(t, s.seen + HomesOf(t)))
  {
    hide Sound;
  }

  ghost predicate NewerThanSeen(s: State, h: Home) {
    forall g | g in s.seen && g.id == h.id :: g.updatedAt < h.updatedAt
  }

  /** Every version after an advance is an old one, or a live one newer than all old ones of its id. */
  lemma AdvancedVersion(slug: string -> string, s: State, t: Store, h: Home)
    requires Live(slug, s) && Newest(s) && Advances(slug, s.store, t) && h in s.seen + HomesOf(t)
    ensures h in s.seen || (h.id in t && t[h.id] == Readable(h) && NewerThanSeen(s, h))
  {
    hide Sound, SlugsDistinct;
    if h in HomesOf(t) {
      var id :| id in t && t[id].Readable? && t[id].home == h;
    }
  }

  lemma AdvanceKeepsNewest(slug: string -> string, s: State, t: Store)
    requires Live(slug, s) && Newest(s) && Advances(slug, s.store, t)
    ensures Newest(State(t, s.seen + HomesOf(t)))
  {
    hide Sound, HomesOf;
    forall h | h in s.seen + HomesOf(t) && h.id in t && t[h.id].Readable?
      ensures h == t[h.id].home || h.updatedAt < t[h.id].home.updatedAt
    {
      AdvancedVersion(slug, s, t, h);
    }
  }

  lemma AdvanceKeepsVersions(slug: string -> string, s: State, t: Store)
    requires Live(slug, s) && Newest(s) && VersionsUnique(s) && Advances(slug, s.store, t)
    ensures VersionsUnique(State(t, s.seen + HomesOf(t)))
  {
    hide Sound, HomesOf, Live, Newest, Advances;
    forall g, h | g in s.seen + HomesOf(t) && h in s.seen + HomesOf(t) && g.id == h.id && g.updatedAt == h.updatedAt
      ensures g == h
    {
      AdvancedVersion(slug, s, t, g);
      AdvancedVersion(slug, s, t, h);
    }
  }

  lemma MovedIsSound(slug: string -> string, h: Home, i: nat, now: int)
    requires Sound(slug, h) && i <= MAX_LENGTH
    ensures Sound(slug, Moved(h, i, now))
  {
    hide GoodBlockIds, IsIdentifier, AllIdentifiers, Elements;
  }

  lemma MatchedIsStored(store: Store, h: Home)
    requires Matches(store, h)
    ensures h.id in store && store[h.id].Readable? && store[h.id].home.updatedAt == h.updatedAt
  {
    hide WellFormed, Trim;
  }

  /** The names under which a reorder leaves the records. */
  lemma ReorderNames(store: Store, homes: seq<Home>, clock: nat -> int)
    requires IsWholeOrder(store, homes)
    ensures var t := PutAll(store, homes, clock, |homes|);
            && t.Keys == store.Keys
            && forall i | 0 <= i < |homes| ::
                 homes[i].id in t && t[homes[i].id].Readable? && t[homes[i].id].home.name == WrittenName(store, homes, i)
  {
    hide PutAll, Matches, Elements, Ids, Distinct;
    ReorderPlaces(store, homes, clock);
    forall i | 0 <= i < |homes|
      ensures var v := Placed(store, homes, clock, i); v.Readable? && v.home.name == WrittenName(store, homes, i)
    {
      MatchedIsStored(store, homes[i]);
    }
  }

  lemma PositionOf(store: Store, homes: seq<Home>, id: string) returns (i: nat)
    requires IsWholeOrder(store, homes) && id in store
    ensures i < |homes| && homes[i].id == id
  {
    hide Matches, Distinct;
    assert id in Elements(Ids(homes));
    i :| i < |homes| && Ids(homes)[i] == id;
  }

  lemma IdsDiffer(store: Store, homes: seq<Home>, i: nat, j: nat)
    requires IsWholeOrder(store, homes) && i < j < |homes|
    ensures homes[i].id != homes[j].id
  {
    hide Matches;
    assert Ids(homes)[i] != Ids(homes)[j];
  }

  /** A reorder leaves distinct slugs exactly when the names it leaves, written or kept, have distinct slugs. */
  lemma ReorderSlugsIff(slug: string -> string, store: Store, homes: seq<Home>, clock: nat -> int)
    requires IsWholeOrder(store, homes)
    ensures SlugsDistinct(slug, PutAll(store, homes, clock, |homes|)) <==> WrittenSlugsDistinct(slug, store, homes)
  {
    hide PutAll, IsWholeOrder, WrittenName;
    ReorderNames(store, homes, clock);
    var t := PutAll(store, homes, clock, |homes|);
    if WrittenSlugsDistinct(slug, store, homes) {
      forall a, b | a in t && b in t && a != b && NameOf(t[a]).Some? && NameOf(t[b]).Some?
        ensures slug(NameOf(t[a]).value) != slug(NameOf(t[b]).value)
      {
        var i := PositionOf(store, homes, a);
        var j := PositionOf(store, homes, b);
        assert i < j || j < i;
      }
    }
    if SlugsDistinct(slug, t) {
      forall i, j | 0 <= i < j < |homes|
        ensures slug(WrittenName(store, homes, i)) != slug(WrittenName(store, homes, j))
      {
        IdsDiffer(store, homes, i, j);
        assert NameOf(t[homes[i].id]).Some? && NameOf(t[homes[j].id]).Some?;
      }
    }
  }

  /** A validated snapshot that is moved becomes a newer record, sound if its slug is not empty. */
  lemma PlacedAdvances(slug: string -> string, store: Store, homes: seq<Home>, clock: nat -> int, i: nat, v: Value)
    requires i < |homes| <= MAX_LENGTH && Validate(v) == Some(homes[i]) && Matches(store, homes[i]) && homes[i].id in store
    requires slug(WrittenName(store, homes, i)) != [] && Placed(store, homes, clock, i) != store[homes[i].id]
    ensures store[homes[i].id].Readable?
    ensures var w := Placed(store, homes, clock, i);
            && w.Readable? && w.home.id == homes[i].id
            && store[homes[i].id].home.updatedAt < w.home.updatedAt && Sound(slug, w.home)
  {
    hide WellFormed, Trim, Matches, Validate;
    MatchedIsStored(store, homes[i]);
    ValidatedName(v, homes[i]);
    MovedIsSound(slug, homes[i], i, clock(i));
  }

  lemma ReorderAdvances(slug: string -> string, store: Store, values: seq<Value>, homes: seq<Home>, clock: nat -> int)
    requires ValidateAll(values) == Some(homes) && IsWholeOrder(store, homes) && |values| <= MAX_LENGTH
    requires WrittenSlugsNonempty(slug, store, homes)
    ensures Advances(slug, store, PutAll(store, homes, clock, |homes|))
  {
    hide Sound, PutAll, Placed, Matches, Validate, WrittenName;
    ReorderPlaces(store, homes, clock);
    WholeOrderMatches(store, homes);
    var t := PutAll(store, homes, clock, |homes|);
    forall id | id in store && t[id] != store[id]
      ensures && store[id].Readable? && t[id].Readable? && t[id].home.id == id
              && store[id].home.updatedAt < t[id].home.updatedAt && Sound(slug, t[id].home)
    {
      var i := PositionOf(store, homes, id);
      PlacedAdvances(slug, store, homes, clock, i, values[i]);
    }
  }

  lemma AdvanceKeeps(slug: string -> string, s: State, t: Store)
    requires Inv(slug, s) && Advances(slug, s.store, t) && SlugsDistinct(slug, t)
    ensures Inv(slug, State(t, s.seen + HomesOf(t)))
  {
    hide Live, Newest, VersionsUnique, Sound, HomesOf, SlugsDistinct, Advances;
    AdvanceKeepsLive(slug, s, t);
    AdvanceKeepsNewest(slug, s, t);
    AdvanceKeepsVersions(slug, s, t);
  }

  lemma LiveSlugs(slug: string -> string, s: State, homes: seq<Home>, clock: nat -> int, seen: set<Home>)
    requires IsWholeOrder(s.store, homes) && Live(slug, State(PutAll(s.store, homes, clock, |homes|), seen))
    ensures WrittenSlugsNonempty(slug, s.store, homes)
  {
    hide PutAll, IsWholeOrder, WrittenName, WellFormed, Trim;
    ReorderNames(s.store, homes, clock);
  }

  /**
   An accepted reorder keeps the invariant exactly when the names it leaves have
   distinct, non-empty slugs.
   */
  lemma ReorderKeepsIff(slug: string -> string, s: State, values: seq<Value>, clock: nat -> int)
    requires Inv(slug, s) && |values| <= MAX_LENGTH && Reorder(s.store, values, clock).Ok?
    ensures var t, homes := Reorder(s.store, values, clock).value, CheckOrder(s.store, values).value;
            Inv(slug, State(t, s.seen + HomesOf(t))) <==>
              WrittenSlugsDistinct(slug, s.store, homes) && WrittenSlugsNonempty(slug, s.store, homes)
  {
    hide Live, Newest, VersionsUnique, SlugsDistinct, CheckOrder, IsWholeOrder, Advances, PutAll, ValidateAll, HomesOf;
    hide WrittenSlugsDistinct, WrittenSlugsNonempty;
    var homes := CheckOrder(s.store, values).value;
    var t := PutAll(s.store, homes, clock, |homes|);
    CheckOrderIff(s.store, values, homes);
    ReorderSlugsIff(slug, s.store, homes, clock);
    if WrittenSlugsDistinct(slug, s.store, homes) && WrittenSlugsNonempty(slug, s.store, homes) {
      ReorderAdvances(slug, s.store, values, homes, clock);
      AdvanceKeeps(slug, s, t);
    }
    if Inv(slug, State(t, s.seen + HomesOf(t))) {
      LiveSlugs(slug, s, homes, clock, s.seen + HomesOf(t));
    }
  }

  // --- Reorders of what was read -------------------------------------------

  /** Every snapshot is a version that was stored at some time. */
  predicate AsRead(s: State, values: seq<Value>) {
    forall v | v in values :: v.Readable? && v.home in s.seen
  }

  lemma SnapshotValidated(slug: string -> string, s: State, values: seq<Value>, homes: seq<Home>, i: nat)
    requires Inv(slug, s) && ValidateAll(values) == Some(homes) && i < |homes|
    requires values[i].Readable? && values[i].home in s.seen && Matches(s.store, homes[i])
    ensures homes[i].id in s.store && s.store[homes[i].id] == Readable(homes[i]) && slug(homes[i].name) != []
  {
    hide SlugsDistinct, WellFormed, Trim;
    assert Validate(values[i]) == Some(homes[i]);
    CurrentIsStored(slug, s, homes[i].id);
    assert s.store[homes[i].id].home == values[i].home;
  }

  /** A reorder of what was read only moves the stored records themselves. */
  lemma ReorderSeesWhatWasRead(slug: string -> string, s: State, values: seq<Value>, homes: seq<Home>)
    requires Inv(slug, s) && AsRead(s, values) && CheckOrder(s.store, values) == Ok(homes)
    ensures Unmodified(s.store, homes) && WrittenSlugsNonempty(slug, s.store, homes)
  {
    hide Inv, CheckOrder, IsWholeOrder, Matches, Validate, WrittenName, Sequence;
    CheckOrderIff(s.store, values, homes);
    WholeOrderMatches(s.store, homes);
    assert |homes| == |values|;
    forall i | 0 <= i < |homes|
      ensures homes[i].id in s.store && s.store[homes[i].id] == Readable(homes[i]) && slug(homes[i].name) != []
    {
      assert values[i] in values;
      SnapshotValidated(slug, s, values, homes, i);
    }
    KeptNames(slug, s.store, homes);
  }

  lemma KeptNames(slug: string -> string, store: Store, homes: seq<Home>)
    requires Unmodified(store, homes) && forall i | 0 <= i < |homes| :: slug(homes[i].name) != []
    ensures WrittenSlugsNonempty(slug, store, homes)
  {
  }

  /** Sending back what was read is harmless, however many other calls ran in between. */
  lemma AsReadIsHarmless(slug: string -> string, s: State, values: seq<Value>, clock: nat -> int)
    requires Inv(slug, s) && AsRead(s, values)
    ensures Harmless(slug, s, ReorderStep(values, clock))
  {
    hide Live, Newest, VersionsUnique, CheckOrder, IsWholeOrder, AsRead, ValidateAll;
    if CheckOrder(s.store, values).Ok? {
      var homes := CheckOrder(s.store, values).value;
      ReorderSeesWhatWasRead(slug, s, values, homes);
      CheckOrderIff(s.store, values, homes);
      forall i, j | 0 <= i < j < |homes|
        ensures slug(WrittenName(s.store, homes, i)) != slug(WrittenName(s.store, homes, j))
      {
        IdsDiffer(s.store, homes, i, j);
        assert NameOf(s.store[homes[i].id]).Some? && NameOf(s.store[homes[j].id]).Some?;
      }
    }
  }

  // --- Runs ----------------------------------------------------------------

  /** A step keeps the invariant exactly when it is harmless. */
  lemma StepKeepsIff(slug: string -> string, s: State, step: Step)
    requires Inv(slug, s) && Possible(step)
    ensures Inv(slug, Apply(slug, s, step)) <==> Harmless(slug, s, step)
  {
    hide Inv, Save, Delete, CheckOrder, HomesOf, FitsSeen, WrittenSlugsDistinct, WrittenSlugsNonempty, Validate, Committed;
    if Attempt(slug, s.store, step).Ok? {
      match step {
        case SaveStep(v, expected, now) =>
          if expected.Some? {
            UpdateKeeps(slug, s, v, expected.value, now);
          } else {
            CreationKeepsIff(slug, s, v, now);
          }
        case DeleteStep(id, expected) => DeleteKeeps(slug, s, id, expected);
        case ReorderStep(values, clock) => ReorderKeepsIff(slug, s, values, clock);
      }
    }
  }

  lemma {:induction false} RunKeeps(slug: string -> string, s: State, steps: seq<Step>, t: State)
    requires Inv(slug, s) && Run(slug, s, steps, t)
    ensures Inv(slug, t) && s.seen <= t.seen
    decreases |steps|
  {
    hide Inv, Possible, Harmless, Attempt, HomesOf;
    if steps != [] {
      StepKeepsIff(slug, s, steps[0]);
      RunKeeps(slug, Apply(slug, s, steps[0]), steps[1..], t);
    }
  }

  /** The state after the steps, harmless or not. */
  function After(slug: string -> string, s: State, steps: seq<Step>): State
    decreases |steps|
  {
    if steps == [] then s else After(slug, Apply(slug, s, steps[0]), steps[1..])
  }

  /** The invariant holds after every prefix of the steps exactly when the steps are a run. */
  lemma {:induction false} RunKeepsIff(slug: string -> string, s: State, steps: seq<Step>)
    requires Inv(slug, s) && forall i | 0 <= i < |steps| :: Possible(steps[i])
    ensures (forall n | 0 <= n <= |steps| :: Inv(slug, After(slug, s, steps[..n]))) <==> Run(slug, s, steps, After(slug, s, steps))
    decreases |steps|
  {
    hide Inv, Possible, Harmless, Attempt, HomesOf;
    if steps != [] {
      var next := Apply(slug, s, steps[0]);
      StepKeepsIff(slug, s, steps[0]);
      AfterPrefixes(slug, s, steps);
      if Inv(slug, next) {
        RunKeepsIff(slug, next, steps[1..]);
      }
    }
  }

  lemma AfterPrefixes(slug: string -> string, s: State, steps: seq<Step>)
    requires steps != [] && Inv(slug, s)
    ensures var next, rest := Apply(slug, s, steps[0]), steps[1..];
            (forall n | 0 <= n <= |steps| :: Inv(slug, After(slug, s, steps[..n]))) <==>
              Inv(slug, next) && (forall n | 0 <= n <= |rest| :: Inv(slug, After(slug, next, rest[..n])))
  {
    hide Inv, Apply;
    var next, rest := Apply(slug, s, steps[0]), steps[1..];
    forall n | 0 < n <= |steps| ensures After(slug, s, steps[..n]) == After(slug, next, rest[..n - 1]) {
      assert steps[..n][1..] == rest[..n - 1];
    }
    if forall n | 0 <= n <= |steps| :: Inv(slug, After(slug, s, steps[..n])) {
      forall n | 0 <= n <= |rest| ensures Inv(slug, After(slug, next, rest[..n])) {
        assert Inv(slug, After(slug, s, steps[..n + 1]));
      }
      assert rest[..0] == [];
    }
    if Inv(slug, next) && forall n | 0 <= n <= |rest| :: Inv(slug, After(slug, next, rest[..n])) {
      forall n | 0 <= n <= |steps| ensures Inv(slug, After(slug, s, steps[..n])) {
        assert n > 0 ==> Inv(slug, After(slug, next, rest[..n - 1]));
      }
    }
  }

  lemma EmptyStoreInv(slug: string -> string)
    ensures Inv(slug, State(map[], {}))
  {
  }

  /** Slugs stay pairwise distinct, over every run from an empty store. */
  lemma SlugsStayDistinct(slug: string -> string, steps: seq<Step>, t: State)
    requires Run(slug, State(map[], {}), steps, t)
    ensures SlugsDistinct(slug, t.store)
    ensures forall id | id in t.store && t.store[id].Readable? :: slug(t.store[id].home.name) != []
  {
    hide WellFormed, Trim, Run;
    EmptyStoreInv(slug);
    RunKeeps(slug, State(map[], {}), steps, t);
  }

  /** While a record lives its revision never goes back, and the same revision is the same content. */
  lemma RevisionsGrow(slug: string -> string, s: State, steps: seq<Step>, t: State, id: string)
    requires Inv(slug, s) && Run(slug, s, steps, t)
    requires id in s.store && s.store[id].Readable? && id in t.store && t.store[id].Readable?
    ensures s.store[id] == t.store[id] || s.store[id].home.updatedAt < t.store[id].home.updatedAt
  {
    hide Sound, SlugsDistinct, Run;
    RunKeeps(slug, s, steps, t);
    assert s.store[id].home in t.seen;
  }

  /**
   No lost edit: when a save or deletion commits, what it replaces is exactly
   the version its caller read, however much later and whatever ran in between.
   */
  lemma NoLostEdit(slug: string -> string, s: State, steps: seq<Step>, t: State, read: Home, draft: Option<Home>, now: int)
    requires Inv(slug, s) && read in s.seen && Run(slug, s, steps, t)
    requires Mutate(slug, t.store, read.id, Some(read.updatedAt), draft, now).Ok?
    ensures read.id in t.store && t.store[read.id] == Readable(read)
  {
    hide Sound, SlugsDistinct, Run, Commit, Validate;
    RunKeeps(slug, s, steps, t);
    var current := Current(t.store, read.id);
    assert current.Some? && current.value.updatedAt == read.updatedAt;
    CurrentIsStored(slug, t, read.id);
  }

  // --- Listings of reachable stores ----------------------------------------

  lemma ListedIsStored(slug: string -> string, s: State, keys: seq<string>, h: Home)
    requires Live(slug, s) && Enumerates(s.store, keys) && h in Collect(Results(s.store, keys))
    ensures h.id in s.store && s.store[h.id] == Readable(h)
  {
    hide WellFormed, Trim, Collect;
    var results := Results(s.store, keys);
    CollectMember(results, h);
    var k: nat :| k < |keys| && results[k] == Some(h);
    assert keys[k] in Elements(keys);
    assert Validate(s.store[keys[k]]) == Some(h);
  }

  lemma NoSlugIssue(slug: string -> string, s: State, homes: seq<Home>, h: Home)
    requires Live(slug, s) && SlugsDistinct(slug, s.store) && h in homes
    requires forall g | g in homes :: g.id in s.store && s.store[g.id] == Readable(g)
    ensures !HasSlugIssue(slug, homes, h)
  {
    hide WellFormed, Trim;
    forall i | 0 <= i < |homes| && homes[i].id != h.id ensures slug(homes[i].name) != slug(h.name) {
      assert homes[i] in homes;
      assert NameOf(s.store[homes[i].id]) == Some(homes[i].name) && NameOf(s.store[h.id]) == Some(h.name);
    }
  }

  lemma {:induction false} NoSlugIssues(slug: string -> string, s: State, homes: seq<Home>, n: nat)
    requires Live(slug, s) && SlugsDistinct(slug, s.store) && n <= |homes|
    requires forall g | g in homes :: g.id in s.store && s.store[g.id] == Readable(g)
    ensures SlugIssues(slug, homes, n) == []
  {
    hide Live, SlugsDistinct, HasSlugIssue;
    if n > 0 {
      NoSlugIssues(slug, s, homes, n - 1);
      NoSlugIssue(slug, s, homes, homes[n - 1]);
    }
  }

  /** The listing of a reachable store reports no empty and no duplicated URL. */
  lemma ReachableListsWithoutSlugIssues(slug: string -> string, s: State, keys: seq<string>,
                                        collate: (string, string) -> bool)
    requires Inv(slug, s) && Enumerates(s.store, keys)
    ensures var homes := Sort(Collect(Results(s.store, keys)), ByNavigation(collate)); SlugIssues(slug, homes, |homes|) == []
  {
    hide Live, SlugsDistinct, SlugIssues, ByNavigation, Collect;
    var readings := Collect(Results(s.store, keys));
    var homes := Sort(readings, ByNavigation(collate));
    SortPermutes(readings, ByNavigation(collate));
    forall g | g in homes ensures g.id in s.store && s.store[g.id] == Readable(g) {
      assert g in multiset(homes);
      ListedIsStored(slug, s, keys, g);
    }
    NoSlugIssues(slug, s, homes, |homes|);
  }

  // --- Outside the discipline ----------------------------------------------

  function Plain(id: string, name: string, order: nat, content: string, revision: nat): Home {
    Home(id, name, order, [], [], content, 0, revision)
  }

  lemma PlainIsValid(id: string, name: string, order: nat, content: string, revision: nat)
    requires id != [] && Trim(id) == id && name != [] && Trim(name) == name
    requires order <= MAX_SAFE_INTEGER && revision <= MAX_SAFE_INTEGER
    ensures var h := Plain(id, name, order, content, revision); Validate(Readable(h)) == Some(h)
  {
    hide Trim;
    var h := Plain(id, name, order, content, revision);
    assert Elements(h.bannerSources) == {};
    assert GoodBlockIds(h.blockIds) && AllIdentifiers(h.bannerSources);
    hide GoodBlockIds, AllIdentifiers, Elements;
    assert IsIdentifier(id);
    hide IsIdentifier;
    assert WellFormed(h);
  }

  lemma LettersAreTrimmed()
    ensures Trim("a") == "a" && Trim("b") == "b"
  {
    TrimFixed("a");
    TrimFixed("b");
  }

  function SameName(name: string): string {
    name
  }

  lemma SaveOver(store: Store, id: string, before: Option<Home>, draft: Home, now: int)
    requires Trim(id) == id != [] && draft.id == id && draft.name != []
    requires store == if before.Some? then map[id := Readable(before.value)] else map[]
    requires before.Some? ==> before.value.id == id && Validate(Readable(before.value)) == before
    requires Validate(Readable(draft)) == Some(draft)
    requires Validate(Readable(Committed(before, draft, now))) == Some(Committed(before, draft, now))
    ensures Save(SameName, store, Readable(draft), if before.Some? then Some(before.value.updatedAt) else None, now)
         == Ok(map[id := Readable(Committed(before, draft, now))])
  {
    hide WellFormed, Trim;
    assert forall other | other in store :: !TakenBy(SameName, store, other, id, draft.name);
    var committed := Committed(before, draft, now);
    assert store[id := Readable(committed)] == map[id := Readable(committed)];
  }

  /**
   Where a creation does not fit: if a home is deleted and created again with the same id and
   revision, a save based on the deleted version is accepted over the new one.
   */
  lemma ReusedIdLosesAnEdit()
    ensures var mine, theirs, edit := Plain("a", "a", 0, "mine", 5), Plain("a", "a", 0, "theirs", 5), Plain("a", "a", 0, "edit", 5);
            var store := map["a" := Readable(mine)];
            && Delete(SameName, store, "a", 5) == Ok(map[])
            && Save(SameName, map[], Readable(theirs), None, 0) == Ok(map["a" := Readable(theirs)])
            && Save(SameName, map["a" := Readable(theirs)], Readable(edit), Some(mine.updatedAt), 0).Ok?
            && mine != theirs
  {
    LettersAreTrimmed();
    PlainIsValid("a", "a", 0, "mine", 5);
    PlainIsValid("a", "a", 0, "theirs", 5);
    PlainIsValid("a", "a", 0, "edit", 5);
    PlainIsValid("a", "a", 0, "edit", 6);
    hide WellFormed, Trim, Save, Validate;
    var mine, theirs, edit := Plain("a", "a", 0, "mine", 5), Plain("a", "a", 0, "theirs", 5), Plain("a", "a", 0, "edit", 5);
    DeleteOnly(mine);
    SaveOver(map[], "a", None, theirs, 0);
    SaveOver(map["a" := Readable(theirs)], "a", Some(theirs), edit, 0);
  }

  lemma DeleteOnly(h: Home)
    requires Trim(h.id) != [] && Validate(Readable(h)) == Some(h)
    ensures Delete(SameName, map[h.id := Readable(h)], h.id, h.updatedAt) == Ok(map[])
  {
    hide WellFormed, Trim;
    assert map[h.id := Readable(h)] - {h.id} == map[];
  }

  /**
   A reorder writes what its snapshots say, unchecked: a snapshot renamed after it
   was read takes the name, hence the slug, of another home.
   */
  lemma RenamedSnapshotSharesASlug()
    ensures var a, b := Plain("a", "a", 0, "", 5), Plain("b", "b", 0, "", 5);
            var store := map["a" := Readable(a), "b" := Readable(b)];
            var r := Reorder(store, [Readable(a), Readable(b.(name := "a"))], (i: nat) => 0);
            && SlugsDistinct(SameName, store)
            && r.Ok? && !SlugsDistinct(SameName, r.value)
  {
    LettersAreTrimmed();
    PlainIsValid("a", "a", 0, "", 5);
    PlainIsValid("b", "b", 0, "", 5);
    PlainIsValid("b", "a", 0, "", 5);
    hide WellFormed, Trim, Validate, Reorder, CheckOrder, PutAll, SlugsDistinct;
    var a, b, c := Plain("a", "a", 0, "", 5), Plain("b", "b", 0, "", 5), Plain("b", "a", 0, "", 5);
    assert c == b.(name := "a") && "a" != "b";
    RenamedPair(map["a" := Readable(a), "b" := Readable(b)], a, b, c);
  }

  lemma RenamedPair(store: Store, a: Home, b: Home, c: Home)
    requires a.id != b.id == c.id && b.updatedAt == c.updatedAt == 5
    requires a.navigationOrder == c.navigationOrder == 0 && a.name == c.name != b.name
    requires store == map[a.id := Readable(a), b.id := Readable(b)]
    requires Validate(Readable(a)) == Some(a) && Validate(Readable(b)) == Some(b) && Validate(Readable(c)) == Some(c)
    ensures SlugsDistinct(SameName, store)
    ensures var r := Reorder(store, [Readable(a), Readable(c)], (i: nat) => 0); r.Ok? && !SlugsDistinct(SameName, r.value)
  {
    hide Validate, WellFormed, CheckOrder, PutAll, SlugsDistinct, IsWholeOrder, ValidateAll;
    var clock := (i: nat) => 0;
    WholePair(store, a, b, c);
    ValidPair(a, c);
    CheckOrderIff(store, [Readable(a), Readable(c)], [a, c]);
    PutPair(store, a, c, clock);
    PairSlugs(store, a, b, c);
  }

  lemma PairSlugs(store: Store, a: Home, b: Home, c: Home)
    requires a.id != b.id == c.id && a.name == c.name != b.name
    requires store == map[a.id := Readable(a), b.id := Readable(b)]
    ensures SlugsDistinct(SameName, store) && !SlugsDistinct(SameName, store[c.id := Readable(Moved(c, 1, 0))])
  {
    var t := store[c.id := Readable(Moved(c, 1, 0))];
    assert NameOf(t[a.id]) == Some(a.name) && NameOf(t[c.id]) == Some(c.name);
  }

  lemma PutPair(store: Store, a: Home, c: Home, clock: nat -> int)
    requires a.navigationOrder == c.navigationOrder == 0
    ensures PutAll(store, [a, c], clock, 2) == store[c.id := Readable(Moved(c, 1, clock(1)))]
  {
    assert PutAll(store, [a, c], clock, 1) == PutAll(store, [a, c], clock, 0);
  }

  lemma SequenceSnoc<T>(results: seq<Option<T>>, x: T)
    requires Sequence(results).Some?
    ensures Sequence(results + [Some(x)]) == Some(Sequence(results).value + [x])
  {
    assert (results + [Some(x)])[..|results|] == results;
  }

  lemma SequencePair<T>(results: seq<Option<T>>, x: T, y: T)
    requires results == [Some(x), Some(y)]
    ensures Sequence(results) == Some([x, y])
  {
    hide Sequence;
    SequenceNone<T>();
    SequenceSnoc([], x);
    assert [] + [Some(x)] == [Some(x)] && [] + [x] == [x];
    SequenceSnoc([Some(x)], y);
    assert [Some(x)] + [Some(y)] == results && [x] + [y] == [x, y];
  }

  lemma ValidPair(a: Home, c: Home)
    requires Validate(Readable(a)) == Some(a) && Validate(Readable(c)) == Some(c)
    ensures ValidateAll([Readable(a), Readable(c)]) == Some([a, c])
  {
    hide Validate, WellFormed, Sequence;
    SequencePair(Checked([Readable(a), Readable(c)]), a, c);
  }

  lemma SequenceNone<T>()
    ensures Sequence<T>([]) == Some([])
  {
  }

  lemma MatchesStored(store: Store, h: Home, g: Home)
    requires g.id in store && store[g.id] == Readable(h) && Validate(Readable(h)) == Some(h) && h.updatedAt == g.updatedAt
    ensures Matches(store, g)
  {
    hide Validate, WellFormed;
  }

  lemma WholePair(store: Store, a: Home, b: Home, c: Home)
    requires a.id != b.id == c.id && b.updatedAt == c.updatedAt
    requires store == map[a.id := Readable(a), b.id := Readable(b)]
    requires Validate(Readable(a)) == Some(a) && Validate(Readable(b)) == Some(b)
    ensures IsWholeOrder(store, [a, c])
  {
    PairKeys(store, a, b, c);
    hide Validate, WellFormed, Elements, Ids, Distinct;
    StoredPair(store, a, b, c);
    hide Matches;
    PairMatches(store, a, b, c);
  }

  lemma StoredPair(store: Store, a: Home, b: Home, c: Home)
    requires a.id != b.id == c.id && store == map[a.id := Readable(a), b.id := Readable(b)]
    ensures a.id in store && store[a.id] == Readable(a) && c.id in store && store[c.id] == Readable(b)
  {
  }

  lemma PairMatches(store: Store, a: Home, b: Home, c: Home)
    requires a.id in store && store[a.id] == Readable(a) && Validate(Readable(a)) == Some(a)
    requires c.id in store && store[c.id] == Readable(b) && Validate(Readable(b)) == Some(b) && b.updatedAt == c.updatedAt
    ensures forall i | 0 <= i < |[a, c]| :: [a, c][i].id in store && Matches(store, [a, c][i])
  {
    hide Validate, WellFormed, Matches;
    var homes := [a, c];
    forall i | 0 <= i < |homes| ensures homes[i].id in store && Matches(store, homes[i]) {
      if i == 0 {
        MatchesStored(store, a, a);
      } else {
        MatchesStored(store, b, c);
      }
    }
  }

  lemma PairKeys(store: Store, a: Home, b: Home, c: Home)
    requires a.id != b.id == c.id && store == map[a.id := Readable(a), b.id := Readable(b)]
    ensures Elements(Ids([a, c])) == store.Keys && Distinct(Ids([a, c])) && |[a, c]| == |store|
  {
    assert store.Keys == {a.id, c.id};
    assert Ids([a, c]) == [a.id, c.id];
    assert |store.Keys| == |store|;
  }
}
