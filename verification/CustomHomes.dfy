/**
 Custom homes in browser storage (customHomes.ts, customHomeValidation.ts).

 Several tabs save, delete and reorder definitions in one IndexedDB store. Each
 call is one transaction, hence one atomic step on a map from ids to records.
 The slug of a name is a parameter.
 */
module CustomHomes {
  import opened Wrappers
  import opened TextUtils
  import opened Sequences
  import opened Sorting

  const MAX_SAFE_INTEGER := 9007199254740991

  /** `content` stands for the fields that only take part as a whole. */
  datatype Home = Home(
    id: string,
    name: string,
    navigationOrder: int,
    blockIds: seq<string>,
    bannerSources: seq<string>,
    content: string,
    createdAt: int,
    updatedAt: int)

  /** An untrusted value: either it has the fields of a home, or it is malformed and at best has a name. */
  datatype Value = Readable(home: Home) | Malformed(nameField: Option<string>)

  type Store = map<string, Value>

  datatype Error = InvalidDefinition | InvalidRequest | EmptySlug | Changed | SlugTaken | DuplicateIds

  // --- Validation ----------------------------------------------------------

  predicate IsIdentifier(s: string) {
    Trim(s) != [] && s == Trim(s)
  }

  predicate IsSafeNat(n: int) {
    0 <= n <= MAX_SAFE_INTEGER
  }

  predicate AllIdentifiers(xs: seq<string>) {
    forall i | 0 <= i < |xs| :: IsIdentifier(xs[i])
  }

  /** Everything the validator demands except the bound of the revision. */
  predicate WellFormed(h: Home) {
    && IsIdentifier(h.id)
    && Trim(h.name) != []
    && IsSafeNat(h.navigationOrder)
    && GoodBlockIds(h.blockIds)
    && AllIdentifiers(h.bannerSources) && |Elements(h.bannerSources)| == |h.bannerSources|
    && IsSafeNat(h.createdAt)
    && h.createdAt <= h.updatedAt
  }

  function Validate(v: Value): (r: Option<Home>)
    ensures r.Some? ==> WellFormed(r.value) && IsSafeNat(r.value.updatedAt) && r.value.name == Trim(r.value.name)
  {
    if v.Readable? && WellFormed(v.home) && v.home.updatedAt <= MAX_SAFE_INTEGER then
      TrimIdempotent(v.home.name);
      Some(v.home.(name := Trim(v.home.name)))
    else None
  }

  predicate GoodBlockIds(ids: seq<string>) {
    AllIdentifiers(ids) && Distinct(ids)
  }

  lemma GoodBlockIdsSnoc(ids: seq<string>)
    requires ids != []
    ensures var init := ids[..|ids| - 1];
            GoodBlockIds(ids) <==> GoodBlockIds(init) && IsIdentifier(ids[|ids| - 1]) && ids[|ids| - 1] !in init
  {
    hide IsIdentifier;
    DistinctLast(ids);
    assert ids == ids[..|ids| - 1] + [ids[|ids| - 1]];
  }

  lemma GoodBlockIdsPrefix(ids: seq<string>, i: nat)
    requires i <= |ids|
    ensures GoodBlockIds(ids) ==> GoodBlockIds(ids[..i])
  {
  }

  /** The duplicate check of block ids, with the set it fills. */
  method CheckBlockIds(ids: seq<string>) returns (ok: bool)
    ensures ok <==> GoodBlockIds(ids)
  {
    var blockIds: set<string> := {};
    for i := 0 to |ids|
      invariant blockIds == Elements(ids[..i])
      invariant GoodBlockIds(ids[..i])
    {
      assert ids[..i + 1][..i] == ids[..i];
      GoodBlockIdsSnoc(ids[..i + 1]);
      DistinctLast(ids[..i + 1]);
      if !IsIdentifier(ids[i]) || ids[i] in blockIds {
        GoodBlockIdsPrefix(ids, i + 1);
        return false;
      }
      blockIds := blockIds + {ids[i]};
    }
    assert ids[..|ids|] == ids;
    ok := true;
  }

  // --- Transactions --------------------------------------------------------

  function NameOf(v: Value): Option<string> {
    match v
    case Readable(h) => Some(h.name)
    case Malformed(name) => name
  }

  predicate TakenBy(slug: string -> string, store: Store, other: string, id: string, name: string) {
    other in store && other != id && NameOf(store[other]).Some? && slug(NameOf(store[other]).value) == slug(name)
  }

  predicate IsSlugTaken(slug: string -> string, store: Store, id: string, name: string) {
    exists other | other in store :: TakenBy(slug, store, other, id, name)
  }

  function Current(store: Store, id: string): Option<Home> {
    if id in store then Validate(store[id]) else None
  }

  function Max(a: int, b: int): int {
    if a < b then b else a
  }

  function NewRevision(current: Option<Home>, draft: Home, now: int): int {
    Max(now, Max(draft.updatedAt, (if current.Some? then current.value.updatedAt else -1) + 1))
  }

  function Committed(current: Option<Home>, draft: Home, now: int): Home {
    draft.(createdAt := if current.Some? then current.value.createdAt else draft.createdAt,
           updatedAt := NewRevision(current, draft, now))
  }

  /** The revision comparison every mutation starts with; it gives the current record. */
  function Compare(store: Store, id: string, expected: Option<int>): Result<Option<Home>, Error> {
    if Trim(id) == [] || (expected.Some? && !IsSafeNat(expected.value)) then Err(InvalidRequest)
    else if id in store && Validate(store[id]).None? then Err(InvalidDefinition)
    else
      var current := Current(store, id);
      if (if current.Some? then Some(current.value.updatedAt) else None) != expected then Err(Changed) else Ok(current)
  }

  /** The record a save writes over `current`. */
  function Commit(slug: string -> string, store: Store, current: Option<Home>, draft: Home, now: int): Result<Home, Error> {
    if IsSlugTaken(slug, store, draft.id, draft.name) then Err(SlugTaken)
    else
      var committed := Validate(Readable(Committed(current, draft, now)));
      if committed.None? then Err(InvalidDefinition) else Ok(committed.value)
  }

  /** One compare-and-write or compare-and-delete transaction; without a draft it deletes. */
  function Mutate(slug: string -> string, store: Store, id: string, expected: Option<int>, draft: Option<Home>, now: int)
    : Result<Store, Error>
  {
    match Compare(store, id, expected)
    case Err(e) => Err(e)
    case Ok(current) =>
      if draft.None? then Ok(store - {id})
      else match Commit(slug, store, current, draft.value, now)
           case Err(e) => Err(e)
           case Ok(home) => Ok(store[home.id := Readable(home)])
  }

  function Save(slug: string -> string, store: Store, definition: Value, expected: Option<int>, now: int)
    : Result<Store, Error>
  {
    var draft := Validate(definition);
    if draft.None? then Err(InvalidDefinition)
    else if slug(draft.value.name) == [] then Err(EmptySlug)
    else Mutate(slug, store, draft.value.id, expected, draft, now)
  }

  function Delete(slug: string -> string, store: Store, id: string, expected: int): Result<Store, Error> {
    Mutate(slug, store, id, Some(expected), None, 0)
  }

  function Checked(values: seq<Value>): (r: seq<Option<Home>>)
    ensures |r| == |values| && forall i | 0 <= i < |r| :: r[i] == Validate(values[i])
  {
    seq(|values|, i requires 0 <= i < |values| => Validate(values[i]))
  }

  /** All results, unless one is missing. */
  function Sequence<T>(results: seq<Option<T>>): (r: Option<seq<T>>)
    ensures r.Some? ==> |r.value| == |results| && forall i | 0 <= i < |results| :: results[i] == Some(r.value[i])
  {
    if results == [] then Some([]) else
      var init, last := Sequence(results[..|results| - 1]), results[|results| - 1];
      if init.None? || last.None? then None else Some(init.value + [last.value])
  }

  /** `map(validateCustomHomeDefinition)`, which throws at an invalid value. */
  function ValidateAll(values: seq<Value>): Option<seq<Home>> {
    Sequence(Checked(values))
  }

  function Ids(homes: seq<Home>): (r: seq<string>)
    ensures |r| == |homes| && forall i | 0 <= i < |r| :: r[i] == homes[i].id
  {
    seq(|homes|, i requires 0 <= i < |homes| => homes[i].id)
  }

  predicate Matches(store: Store, h: Home) {
    Current(store, h.id).Some? && Current(store, h.id).value.updatedAt == h.updatedAt
  }

  /** What the reorder transaction writes for the snapshot at position `i`. */
  function Moved(h: Home, i: int, now: int): Home {
    h.(navigationOrder := i, updatedAt := Max(now, h.updatedAt + 1))
  }

  /** The store after the writes for the first `n` snapshots; `clock` gives the time read at each. */
  function PutAll(store: Store, homes: seq<Home>, clock: nat -> int, n: nat): Store
    requires n <= |homes|
  {
    if n == 0 then store else
      var before, h := PutAll(store, homes, clock, n - 1), homes[n - 1];
      if h.navigationOrder == n - 1 then before else before[h.id := Readable(Moved(h, n - 1, clock(n - 1)))]
  }

  /** The checks of a reorder; they give the snapshots to write. */
  function CheckOrder(store: Store, values: seq<Value>): Result<seq<Home>, Error> {
    var snapshots := ValidateAll(values);
    if snapshots.None? then Err(InvalidDefinition)
    else if |Elements(Ids(snapshots.value))| != |snapshots.value| then Err(DuplicateIds)
    else if exists id | id in store :: Validate(store[id]).None? then Err(InvalidDefinition)
    else if |store| != |snapshots.value| || exists i | 0 <= i < |snapshots.value| :: !Matches(store, snapshots.value[i]) then
      Err(Changed)
    else Ok(snapshots.value)
  }

  function Reorder(store: Store, values: seq<Value>, clock: nat -> int): Result<Store, Error> {
    match CheckOrder(store, values)
    case Err(e) => Err(e)
    case Ok(homes) => Ok(PutAll(store, homes, clock, |homes|))
  }

  /** A committed save passes validation exactly when its new revision is a safe integer. */
  lemma CommitValidIff(current: Value, draft: Value, now: int)
    requires Validate(draft).Some?
    ensures Validate(Readable(Committed(Validate(current), Validate(draft).value, now))).Some?
       <==> NewRevision(Validate(current), Validate(draft).value, now) <= MAX_SAFE_INTEGER
  {
  }

  // --- Reordering ----------------------------------------------------------

  lemma SubsetOfSameSize<T>(a: set<T>, b: set<T>)
    requires a <= b && |a| == |b|
    ensures a == b
  {
    assert |b - a| == |b| - |a|;
    assert b - a == {};
  }

  /** The snapshots are all the records, once each, at their current revisions. */
  ghost predicate IsWholeOrder(store: Store, homes: seq<Home>) {
    && Elements(Ids(homes)) == store.Keys && Distinct(Ids(homes)) && |homes| == |store|
    && forall i | 0 <= i < |homes| :: homes[i].id in store && Matches(store, homes[i])
  }

  /** The pigeonhole step: equal counts and distinct ids leave no record out. */
  lemma Pigeonhole(store: Store, homes: seq<Home>)
    requires |Elements(Ids(homes))| == |homes| == |store|
    requires forall i | 0 <= i < |homes| :: Matches(store, homes[i])
    ensures IsWholeOrder(store, homes)
  {
    DistinctBySize(Ids(homes));
    assert Elements(Ids(homes)) <= store.Keys;
    assert |store.Keys| == |store|;
    SubsetOfSameSize(Elements(Ids(homes)), store.Keys);
  }

  lemma WholeOrderPasses(store: Store, homes: seq<Home>)
    requires IsWholeOrder(store, homes)
    ensures |Elements(Ids(homes))| == |homes| && forall id | id in store :: Validate(store[id]).Some?
  {
    hide Validate, WellFormed;
    DistinctBySize(Ids(homes));
    forall id | id in store ensures Validate(store[id]).Some? {
      assert id in Elements(Ids(homes));
      var i :| 0 <= i < |homes| && Ids(homes)[i] == id;
      assert Matches(store, homes[i]);
    }
  }

  lemma CheckPasses(store: Store, values: seq<Value>, homes: seq<Home>)
    requires ValidateAll(values) == Some(homes) && IsWholeOrder(store, homes)
    ensures CheckOrder(store, values) == Ok(homes)
  {
    hide Validate, WellFormed, IsWholeOrder, Matches, Elements, Ids, ValidateAll;
    WholeOrderPasses(store, homes);
    WholeOrderMatches(store, homes);
  }

  lemma CheckedIsWhole(store: Store, values: seq<Value>)
    requires CheckOrder(store, values).Ok?
    ensures ValidateAll(values) == Some(CheckOrder(store, values).value)
    ensures IsWholeOrder(store, CheckOrder(store, values).value)
  {
    hide Validate, WellFormed, IsWholeOrder, Matches, Elements, Ids, ValidateAll;
    Pigeonhole(store, CheckOrder(store, values).value);
  }

  /** The reorder check accepts exactly the valid snapshots that are the whole store at its current revisions. */
  lemma CheckOrderIff(store: Store, values: seq<Value>, homes: seq<Home>)
    ensures CheckOrder(store, values) == Ok(homes) <==> ValidateAll(values) == Some(homes) && IsWholeOrder(store, homes)
  {
    hide CheckOrder, IsWholeOrder, ValidateAll;
    if CheckOrder(store, values).Ok? {
      CheckedIsWhole(store, values);
    }
    if ValidateAll(values) == Some(homes) && IsWholeOrder(store, homes) {
      CheckPasses(store, values, homes);
    }
  }

  lemma WholeOrderMatches(store: Store, homes: seq<Home>)
    requires IsWholeOrder(store, homes)
    ensures |homes| == |store| && forall i | 0 <= i < |homes| :: Matches(store, homes[i])
  {
  }

  /** What the reorder leaves under the id of the snapshot at position `i`. */
  function Placed(store: Store, homes: seq<Home>, clock: nat -> int, i: nat): Value
    requires i < |homes| && homes[i].id in store
  {
    if homes[i].navigationOrder == i then store[homes[i].id] else Readable(Moved(homes[i], i, clock(i)))
  }

  lemma {:induction false} PutAllAt(store: Store, homes: seq<Home>, clock: nat -> int, n: nat)
    requires n <= |homes| && Distinct(Ids(homes)) && forall i | 0 <= i < |homes| :: homes[i].id in store
    ensures var t := PutAll(store, homes, clock, n);
            && t.Keys == store.Keys
            && (forall i | 0 <= i < |homes| :: t[homes[i].id] == if i < n then Placed(store, homes, clock, i) else store[homes[i].id])
  {
    if n > 0 {
      PutAllAt(store, homes, clock, n - 1);
      assert forall i | 0 <= i < |homes| && i != n - 1 :: Ids(homes)[i] != Ids(homes)[n - 1];
    }
  }

  /** A reorder writes every record at its place and nothing else. */
  lemma ReorderPlaces(store: Store, homes: seq<Home>, clock: nat -> int)
    requires IsWholeOrder(store, homes)
    ensures var t := PutAll(store, homes, clock, |homes|);
            && t.Keys == store.Keys
            && forall i | 0 <= i < |homes| :: t[homes[i].id] == Placed(store, homes, clock, i)
  {
    hide Validate, WellFormed;
    PutAllAt(store, homes, clock, |homes|);
  }

  // --- Listing -------------------------------------------------------------

  /** Navigation order, then the collation of the ids. */
  function ByNavigation(collate: (string, string) -> bool): (Home, Home) -> bool {
    (a: Home, b: Home) =>
      a.navigationOrder < b.navigationOrder || (a.navigationOrder == b.navigationOrder && collate(a.id, b.id))
  }

  lemma NavigationIsTotal(collate: (string, string) -> bool)
    requires TotalPreorder(collate)
    ensures TotalPreorder(ByNavigation(collate))
  {
    var leq := ByNavigation(collate);
    forall a, b ensures leq(a, b) || leq(b, a) {
      assert collate(a.id, b.id) || collate(b.id, a.id);
    }
    forall a, b, c | leq(a, b) && leq(b, c) ensures leq(a, c) {
      assert collate(a.id, b.id) && collate(b.id, c.id) ==> collate(a.id, c.id);
    }
  }

  /** The results that are there, in order. */
  function Collect<T>(results: seq<Option<T>>): seq<T> {
    if results == [] then [] else
      var last := results[|results| - 1];
      Collect(results[..|results| - 1]) + if last.Some? then [last.value] else []
  }

  /** The keys whose result is missing, in order. */
  function Missing<K, T>(keys: seq<K>, results: seq<Option<T>>): seq<K>
    requires |keys| == |results|
  {
    if keys == [] then [] else
      var n := |keys| - 1;
      Missing(keys[..n], results[..n]) + if results[n].Some? then [] else [keys[n]]
  }

  lemma CollectNone<T>()
    ensures Collect<T>([]) == [] && Missing<string, T>([], []) == []
  {
  }

  lemma CollectNext<K, T>(keys: seq<K>, results: seq<Option<T>>, i: nat)
    requires i < |keys| == |results|
    ensures Collect(results[..i + 1]) == Collect(results[..i]) + if results[i].Some? then [results[i].value] else []
    ensures Missing(keys[..i + 1], results[..i + 1]) == Missing(keys[..i], results[..i]) + if results[i].Some? then [] else [keys[i]]
  {
    assert results[..i + 1][..i] == results[..i] && keys[..i + 1][..i] == keys[..i];
  }

  /** The validation results of the records under these keys. */
  function Results(store: Store, keys: seq<string>): (r: seq<Option<Home>>)
    requires forall k | k in keys :: k in store
    ensures |r| == |keys| && forall i | 0 <= i < |r| :: r[i] == Validate(store[keys[i]])
  {
    Checked(seq(|keys|, i requires 0 <= i < |keys| => store[keys[i]]))
  }

  /** `getAll` reads every record once. */
  ghost predicate Enumerates(store: Store, keys: seq<string>) {
    Distinct(keys) && Elements(keys) == store.Keys
  }

  predicate HasSlugIssue(slug: string -> string, homes: seq<Home>, home: Home) {
    slug(home.name) == [] || exists i | 0 <= i < |homes| :: homes[i].id != home.id && slug(homes[i].name) == slug(home.name)
  }

  function SlugIssues(slug: string -> string, homes: seq<Home>, n: nat): seq<string>
    requires n <= |homes|
  {
    if n == 0 then [] else
      SlugIssues(slug, homes, n - 1) + if HasSlugIssue(slug, homes, homes[n - 1]) then [homes[n - 1].id] else []
  }

  lemma {:induction false} CollectMember<T>(results: seq<Option<T>>, x: T)
    ensures x in Collect(results) <==> Some(x) in results
  {
    if results != [] {
      CollectMember(results[..|results| - 1], x);
      InLast(results, Some(x));
      if results[|results| - 1].Some? {
        InLast(Collect(results), x);
      }
    }
  }

  /** Results that are distinct where they exist are collected without repetition. */
  lemma {:induction false} CollectDistinct<T>(results: seq<Option<T>>)
    requires forall i, j | 0 <= i < j < |results| && results[i].Some? :: results[i] != results[j]
    ensures Distinct(Collect(results))
  {
    if results != [] {
      var init, last := results[..|results| - 1], results[|results| - 1];
      CollectDistinct(init);
      if last.Some? {
        CollectMember(init, last.value);
        assert last !in init;
        DistinctLast(Collect(results));
      }
    }
  }

  /** The longest array of JavaScript. */
  const MAX_LENGTH := 4294967295

  /** The snapshots are the stored records themselves. */
  ghost predicate Unmodified(store: Store, homes: seq<Home>) {
    forall i | 0 <= i < |homes| :: homes[i].id in store && store[homes[i].id] == Readable(homes[i])
  }

  /** The homes as a reorder leaves them, in the order given. */
  function Arranged(homes: seq<Home>, clock: nat -> int): (r: seq<Home>)
    ensures |r| == |homes|
    ensures forall i | 0 <= i < |r| ::
              r[i] == if homes[i].navigationOrder == i then homes[i] else Moved(homes[i], i, clock(i))
  {
    seq(|homes|, i requires 0 <= i < |homes| =>
      if homes[i].navigationOrder == i then homes[i] else Moved(homes[i], i, clock(i)))
  }

  ghost predicate RevisionsSafe(homes: seq<Home>) {
    forall i | 0 <= i < |homes| :: homes[i].updatedAt <= MAX_SAFE_INTEGER
  }

  lemma ValidatedName(v: Value, h: Home)
    requires Validate(v) == Some(h)
    ensures Trim(h.name) == h.name && WellFormed(h)
  {
    TrimIdempotent(v.home.name);
    hide Trim;
  }

  lemma ValidatedAgain(v: Value, h: Home, i: nat, now: int)
    requires Validate(v) == Some(h) && i <= MAX_LENGTH
    ensures Trim(h.name) == h.name
    ensures Validate(Readable(h)) == Some(h)
    ensures Validate(Readable(Moved(h, i, now))) ==
              if Moved(h, i, now).updatedAt <= MAX_SAFE_INTEGER then Some(Moved(h, i, now)) else None
  {
    hide WellFormed, Trim, Moved;
    ValidatedName(v, h);
    MovedWellFormed(h, i, now);
  }

  lemma MovedWellFormed(h: Home, i: nat, now: int)
    requires WellFormed(h) && i <= MAX_LENGTH
    ensures WellFormed(Moved(h, i, now)) && Moved(h, i, now).name == h.name
  {
    hide GoodBlockIds, IsIdentifier, AllIdentifiers, Elements, Trim;
  }

  /** Each of these homes is what the record under its id validates to. */
  ghost predicate StoredAs(store: Store, homes: seq<Home>) {
    forall i | 0 <= i < |homes| :: homes[i].id in store && Validate(store[homes[i].id]) == Some(homes[i])
  }

  lemma ArrangedAt(store: Store, homes: seq<Home>, clock: nat -> int, i: nat)
    requires i < |homes| <= MAX_LENGTH && Validate(Readable(homes[i])) == Some(homes[i])
    requires homes[i].id in store && store[homes[i].id] == Readable(homes[i])
    requires Arranged(homes, clock)[i].updatedAt <= MAX_SAFE_INTEGER
    ensures Validate(Placed(store, homes, clock, i)) == Some(Arranged(homes, clock)[i])
  {
    hide Validate, WellFormed;
    ValidatedAgain(Readable(homes[i]), homes[i], i, clock(i));
  }

  lemma ArrangedStoredAt(store: Store, homes: seq<Home>, clock: nat -> int, i: nat)
    requires IsWholeOrder(store, homes) && |homes| <= MAX_LENGTH && i < |homes|
    requires StoredAs(store, homes) && Unmodified(store, homes) && RevisionsSafe(Arranged(homes, clock))
    ensures var t, h := PutAll(store, homes, clock, |homes|), Arranged(homes, clock)[i];
            h.id in t && Validate(t[h.id]) == Some(h)
  {
    hide Validate, WellFormed, PutAll;
    ReorderPlaces(store, homes, clock);
    ArrangedAt(store, homes, clock, i);
  }

  lemma ArrangedStored(store: Store, homes: seq<Home>, clock: nat -> int)
    requires IsWholeOrder(store, homes) && |homes| <= MAX_LENGTH
    requires StoredAs(store, homes) && Unmodified(store, homes) && RevisionsSafe(Arranged(homes, clock))
    ensures StoredAs(PutAll(store, homes, clock, |homes|), Arranged(homes, clock))
  {
    hide Validate, WellFormed, PutAll, Unmodified, RevisionsSafe, IsWholeOrder;
    forall i | 0 <= i < |homes|
      ensures var t, h := PutAll(store, homes, clock, |homes|), Arranged(homes, clock)[i];
              h.id in t && Validate(t[h.id]) == Some(h)
    {
      ArrangedStoredAt(store, homes, clock, i);
    }
  }

  lemma ArrangedSorted(homes: seq<Home>, clock: nat -> int, collate: (string, string) -> bool)
    requires Distinct(Ids(homes))
    ensures var r, leq := Arranged(homes, clock), ByNavigation(collate);
            Sorted(r, leq) && Antisymmetric(r, leq) && Distinct(r)
  {
    var r := Arranged(homes, clock);
    assert forall i | 0 <= i < |r| :: r[i].navigationOrder == i && r[i].id == Ids(homes)[i];
  }

  lemma ResultOf(store: Store, keys: seq<string>, homes: seq<Home>, k: nat) returns (i: nat)
    requires Enumerates(store, keys) && StoredAs(store, homes) && Elements(Ids(homes)) == store.Keys && k < |keys|
    ensures i < |homes| && homes[i].id == keys[k] && Results(store, keys)[k] == Some(homes[i])
  {
    hide Validate, WellFormed;
    assert keys[k] in Elements(Ids(homes));
    i :| i < |homes| && Ids(homes)[i] == keys[k];
  }

  lemma ResultFor(store: Store, keys: seq<string>, homes: seq<Home>, i: nat)
    requires Enumerates(store, keys) && StoredAs(store, homes) && i < |homes|
    ensures Some(homes[i]) in Results(store, keys)
  {
    hide Validate, WellFormed;
    assert homes[i].id in Elements(keys);
    var k: nat :| k < |keys| && keys[k] == homes[i].id;
    assert Results(store, keys)[k] == Some(homes[i]);
  }

  lemma ResultsPresent(store: Store, keys: seq<string>, homes: seq<Home>)
    requires Enumerates(store, keys) && StoredAs(store, homes) && Elements(Ids(homes)) == store.Keys
    ensures forall k | 0 <= k < |keys| :: Results(store, keys)[k].Some? && Results(store, keys)[k].value.id == keys[k]
  {
    hide Validate, WellFormed;
    forall k | 0 <= k < |keys|
      ensures Results(store, keys)[k].Some? && Results(store, keys)[k].value.id == keys[k]
    {
      var i := ResultOf(store, keys, homes, k);
    }
  }

  lemma ResultsAre(store: Store, keys: seq<string>, homes: seq<Home>, h: Home)
    requires Enumerates(store, keys) && StoredAs(store, homes) && Elements(Ids(homes)) == store.Keys
    ensures Some(h) in Results(store, keys) <==> h in homes
  {
    hide Validate, WellFormed;
    var results := Results(store, keys);
    if Some(h) in results {
      var k: nat :| k < |results| && results[k] == Some(h);
      var i := ResultOf(store, keys, homes, k);
    }
    if h in homes {
      var i: nat :| i < |homes| && homes[i] == h;
      ResultFor(store, keys, homes, i);
    }
  }

  /** The records read back are exactly the homes stored. */
  lemma ReadBack(store: Store, keys: seq<string>, homes: seq<Home>)
    requires Enumerates(store, keys) && StoredAs(store, homes) && Elements(Ids(homes)) == store.Keys
    ensures Distinct(Collect(Results(store, keys))) && Elements(Collect(Results(store, keys))) == Elements(homes)
    ensures Missing(keys, Results(store, keys)) == []
  {
    hide Validate, WellFormed;
    ResultsPresent(store, keys, homes);
    CollectDistinct(Results(store, keys));
    NoneMissing(keys, Results(store, keys));
    forall h ensures h in Collect(Results(store, keys)) <==> h in homes {
      CollectMember(Results(store, keys), h);
      ResultsAre(store, keys, homes, h);
    }
  }

  /** Any reading of stored homes sorts to their sorted arrangement. */
  lemma ListingIs(store: Store, keys: seq<string>, homes: seq<Home>, collate: (string, string) -> bool)
    requires Enumerates(store, keys) && StoredAs(store, homes) && Elements(Ids(homes)) == store.Keys
    requires TotalPreorder(collate) && Distinct(homes)
    requires Sorted(homes, ByNavigation(collate)) && Antisymmetric(homes, ByNavigation(collate))
    ensures Sort(Collect(Results(store, keys)), ByNavigation(collate)) == homes
    ensures Missing(keys, Results(store, keys)) == []
  {
    hide Validate, WellFormed, ByNavigation;
    var readings, leq := Collect(Results(store, keys)), ByNavigation(collate);
    ReadBack(store, keys, homes);
    SameElementsPermute(readings, homes);
    NavigationIsTotal(collate);
    SortSorts(readings, leq);
    SortPermutes(readings, leq);
    SortedIsUnique(homes, Sort(readings, leq), leq);
  }

  lemma WholeOrderLists(store: Store, homes: seq<Home>, clock: nat -> int, keys: seq<string>,
                        collate: (string, string) -> bool)
    requires IsWholeOrder(store, homes) && |homes| <= MAX_LENGTH
    requires StoredAs(store, homes) && Unmodified(store, homes) && RevisionsSafe(Arranged(homes, clock))
    requires TotalPreorder(collate) && Enumerates(PutAll(store, homes, clock, |homes|), keys)
    ensures var t := PutAll(store, homes, clock, |homes|);
            && Sort(Collect(Results(t, keys)), ByNavigation(collate)) == Arranged(homes, clock)
            && Missing(keys, Results(t, keys)) == []
  {
    hide Validate, WellFormed, ByNavigation, TotalPreorder, Unmodified, StoredAs, PutAll, RevisionsSafe;
    hide Elements, Distinct, Sorted, Antisymmetric;
    ReorderPlaces(store, homes, clock);
    ArrangedStored(store, homes, clock);
    ArrangedSorted(homes, clock, collate);
    assert Ids(Arranged(homes, clock)) == Ids(homes);
    hide Placed;
    ListingIs(PutAll(store, homes, clock, |homes|), keys, Arranged(homes, clock), collate);
  }

  lemma UnmodifiedStoredAs(store: Store, values: seq<Value>, homes: seq<Home>)
    requires CheckOrder(store, values) == Ok(homes) && Unmodified(store, homes)
    ensures StoredAs(store, homes) && |homes| == |values|
  {
    hide WellFormed, Trim;
    forall i | 0 <= i < |homes| ensures Validate(store[homes[i].id]) == Some(homes[i]) {
      ValidatedAgain(values[i], homes[i], 0, 0);
    }
  }

  /**
   After a reorder of unmodified snapshots, the listing gives the homes in the
   order asked for, none is missing, and only moved homes have a new revision.
   */
  lemma ReorderListsInOrder(store: Store, values: seq<Value>, clock: nat -> int, homes: seq<Home>,
                            keys: seq<string>, collate: (string, string) -> bool)
    requires CheckOrder(store, values) == Ok(homes) && |values| <= MAX_LENGTH
    requires Unmodified(store, homes) && RevisionsSafe(Arranged(homes, clock))
    requires TotalPreorder(collate) && Enumerates(Reorder(store, values, clock).value, keys)
    ensures var t := Reorder(store, values, clock).value;
            && Sort(Collect(Results(t, keys)), ByNavigation(collate)) == Arranged(homes, clock)
            && Missing(keys, Results(t, keys)) == []
  {
    hide Validate, WellFormed, CheckOrder, ByNavigation, TotalPreorder, Unmodified, StoredAs, RevisionsSafe, IsWholeOrder, PutAll;
    UnmodifiedStoredAs(store, values, homes);
    CheckOrderIff(store, values, homes);
    WholeOrderLists(store, homes, clock, keys, collate);
  }

  /** A record's key is its id. */
  ghost predicate KeyedById(store: Store) {
    forall id | id in store && store[id].Readable? :: store[id].home.id == id
  }

  /** The homes a reorder leaves, in the order given: moved snapshots, and the stored record where a snapshot is in place. */
  function Left(store: Store, homes: seq<Home>, clock: nat -> int): (r: seq<Home>)
    ensures |r| == |homes|
    ensures forall i | 0 <= i < |r| ::
              r[i] == if homes[i].navigationOrder == i then Current(store, homes[i].id).GetOr(homes[i]) else Moved(homes[i], i, clock(i))
  {
    seq(|homes|, i requires 0 <= i < |homes| =>
      if homes[i].navigationOrder == i then Current(store, homes[i].id).GetOr(homes[i]) else Moved(homes[i], i, clock(i)))
  }

  lemma LeftAt(store: Store, values: seq<Value>, homes: seq<Home>, clock: nat -> int, i: nat)
    requires KeyedById(store) && ValidateAll(values) == Some(homes) && i < |homes| == |values| <= MAX_LENGTH
    requires homes[i].id in store && Matches(store, homes[i]) && RevisionsSafe(Left(store, homes, clock))
    ensures Left(store, homes, clock)[i].id == homes[i].id
    ensures Validate(Placed(store, homes, clock, i)) == Some(Left(store, homes, clock)[i])
  {
    hide WellFormed, Trim, Left;
    assert Validate(values[i]) == Some(homes[i]);
    ValidatedAgain(values[i], homes[i], i, clock(i));
  }

  lemma LeftStored(store: Store, values: seq<Value>, homes: seq<Home>, clock: nat -> int)
    requires KeyedById(store) && ValidateAll(values) == Some(homes) && IsWholeOrder(store, homes) && |values| <= MAX_LENGTH
    requires RevisionsSafe(Left(store, homes, clock))
    ensures Ids(Left(store, homes, clock)) == Ids(homes)
    ensures StoredAs(PutAll(store, homes, clock, |homes|), Left(store, homes, clock))
  {
    hide Validate, PutAll, Left, Placed, Matches, RevisionsSafe, Elements, Distinct, Sequence, WellFormed;
    ReorderPlaces(store, homes, clock);
    WholeOrderMatches(store, homes);
    assert |homes| == |values|;
    var left := Left(store, homes, clock);
    forall i | 0 <= i < |homes|
      ensures left[i].id == homes[i].id && Validate(Placed(store, homes, clock, i)) == Some(left[i])
    {
      LeftAt(store, values, homes, clock, i);
    }
    LeftKept(store, PutAll(store, homes, clock, |homes|), homes, left, clock);
  }

  lemma LeftKept(store: Store, t: Store, homes: seq<Home>, left: seq<Home>, clock: nat -> int)
    requires |left| == |homes| && t.Keys == store.Keys && forall i | 0 <= i < |homes| :: homes[i].id in store
    requires forall i | 0 <= i < |homes| :: t[homes[i].id] == Placed(store, homes, clock, i)
    requires forall i | 0 <= i < |homes| :: left[i].id == homes[i].id && Validate(Placed(store, homes, clock, i)) == Some(left[i])
    ensures Ids(left) == Ids(homes) && StoredAs(t, left)
  {
    hide Validate, Placed;
  }

  /** The collation tells the stored ids apart. */
  ghost predicate TellsApart(collate: (string, string) -> bool, store: Store) {
    forall a, b | a in store && b in store && collate(a, b) && collate(b, a) :: a == b
  }

  lemma IdsDetermine(homes: seq<Home>, others: seq<Home>)
    requires Distinct(Ids(homes)) && Elements(others) == Elements(homes) && Ids(others) == Ids(homes)
    ensures others == homes
  {
    assert |Ids(others)| == |others| == |homes|;
    forall i | 0 <= i < |homes| ensures others[i] == homes[i] {
      assert others[i] in Elements(homes);
      var j :| 0 <= j < |homes| && homes[j] == others[i];
      assert Ids(homes)[j] == Ids(others)[i] == Ids(homes)[i];
    }
  }

  lemma StoredTellApart(store: Store, homes: seq<Home>, collate: (string, string) -> bool)
    requires TellsApart(collate, store) && Elements(Ids(homes)) == store.Keys && Distinct(Ids(homes))
    ensures Antisymmetric(homes, ByNavigation(collate)) && Distinct(homes)
  {
    forall i | 0 <= i < |homes| ensures homes[i].id in store {
      assert Ids(homes)[i] in Elements(Ids(homes));
    }
    forall i, j | 0 <= i < |homes| && 0 <= j < |homes| && homes[i].id == homes[j].id ensures i == j {
      assert Ids(homes)[i] == Ids(homes)[j];
    }
  }

  /** Stored homes are listed in the order of this arrangement exactly when it is sorted. */
  lemma ListsInOrderIff(store: Store, keys: seq<string>, homes: seq<Home>, collate: (string, string) -> bool)
    requires Enumerates(store, keys) && StoredAs(store, homes) && Elements(Ids(homes)) == store.Keys && Distinct(Ids(homes))
    requires TotalPreorder(collate) && TellsApart(collate, store)
    ensures Ids(Sort(Collect(Results(store, keys)), ByNavigation(collate))) == Ids(homes) <==> Sorted(homes, ByNavigation(collate))
  {
    hide StoredAs, ByNavigation, Sort, Collect, TotalPreorder, Sorted, Antisymmetric, Distinct, TellsApart;
    var readings, leq := Collect(Results(store, keys)), ByNavigation(collate);
    StoredTellApart(store, homes, collate);
    ReadBack(store, keys, homes);
    NavigationIsTotal(collate);
    SortSorts(readings, leq);
    SortPermutes(readings, leq);
    PermutedElements(readings, Sort(readings, leq));
    if Sorted(homes, leq) {
      ListingIs(store, keys, homes, collate);
    }
    if Ids(Sort(readings, leq)) == Ids(homes) {
      IdsDetermine(homes, Sort(readings, leq));
    }
  }

  lemma PermutedElements<T>(xs: seq<T>, ys: seq<T>)
    requires multiset(xs) == multiset(ys)
    ensures Elements(xs) == Elements(ys)
  {
    forall x ensures x in xs <==> x in ys {
      assert x in multiset(xs) <==> x in multiset(ys);
    }
  }

  /**
   An accepted reorder, also one of changed snapshots, leaves the homes listed in
   the order asked for exactly when what it leaves is sorted: a record whose
   snapshot says it is in place is not written, so its stored position counts.
   */
  lemma ReorderListsInOrderIff(store: Store, values: seq<Value>, clock: nat -> int, homes: seq<Home>,
                               keys: seq<string>, collate: (string, string) -> bool)
    requires KeyedById(store) && CheckOrder(store, values) == Ok(homes) && |values| <= MAX_LENGTH
    requires RevisionsSafe(Left(store, homes, clock))
    requires TotalPreorder(collate) && TellsApart(collate, store)
    requires Enumerates(Reorder(store, values, clock).value, keys)
    ensures Ids(Sort(Collect(Results(Reorder(store, values, clock).value, keys)), ByNavigation(collate))) == Ids(homes)
       <==> Sorted(Left(store, homes, clock), ByNavigation(collate))
  {
    hide Validate, CheckOrder, ByNavigation, TotalPreorder, StoredAs, RevisionsSafe, PutAll, Left, Sort, Collect, Sorted;
    hide KeyedById, Matches, Elements, Distinct, ValidateAll;
    CheckOrderIff(store, values, homes);
    ReorderPlaces(store, homes, clock);
    LeftStored(store, values, homes, clock);
    ListsInOrderIff(PutAll(store, homes, clock, |homes|), keys, Left(store, homes, clock), collate);
  }

  /** The records an accepted reorder leaves all read back, as what it meant to leave, exactly when their revisions are safe integers. */
  lemma ReorderReadsBackIff(store: Store, values: seq<Value>, homes: seq<Home>, clock: nat -> int)
    requires KeyedById(store) && CheckOrder(store, values) == Ok(homes) && |values| <= MAX_LENGTH
    ensures StoredAs(Reorder(store, values, clock).value, Left(store, homes, clock)) <==> RevisionsSafe(Left(store, homes, clock))
  {
    hide WellFormed, Trim, PutAll, IsWholeOrder, Left, KeyedById, CheckOrder, ValidateAll;
    CheckOrderIff(store, values, homes);
    if RevisionsSafe(Left(store, homes, clock)) {
      LeftStored(store, values, homes, clock);
    }
  }

  lemma {:induction false} NoneMissing<K, T>(keys: seq<K>, results: seq<Option<T>>)
    requires |keys| == |results| && forall i | 0 <= i < |results| :: results[i].Some?
    ensures Missing(keys, results) == []
  {
    if keys != [] {
      NoneMissing(keys[..|keys| - 1], results[..|keys| - 1]);
    }
  }

  // --- The object store ----------------------------------------------------

  class CustomHomeStore {
    var records: Store
    const slug: string -> string

    constructor (slug: string -> string)
      ensures records == map[] && this.slug == slug
    {
      this.slug := slug;
      records := map[];
    }

    /** The transaction shared by saves and deletions; `r` is the committed record, if one was written. */
    method MutateCustomHome(id: string, expected: Option<int>, draft: Option<Home>, now: int)
      returns (r: Result<Option<Home>, Error>)
      modifies this
      ensures Mutate(slug, old(records), id, expected, draft, now) == if r.Ok? then Ok(records) else Err(r.error)
      ensures r.Err? ==> records == old(records)
      ensures r.Ok? && draft.Some? ==> r.value.Some? && r.value.value.id in records
                                       && records[r.value.value.id] == Readable(r.value.value)
    {
      hide Compare, Commit;
      var compared := Compare(records, id, expected);
      if compared.Err? { return Err(compared.error); }
      if draft.None? {
        records := records - {id};
        return Ok(None);
      }
      var committed := Commit(slug, records, compared.value, draft.value, now);
      if committed.Err? { return Err(committed.error); }
      records := records[committed.value.id := Readable(committed.value)];
      r := Ok(Some(committed.value));
    }

    method SaveCustomHome(definition: Value, expected: Option<int>, now: int) returns (r: Result<Home, Error>)
      modifies this
      ensures Save(slug, old(records), definition, expected, now) == if r.Ok? then Ok(records) else Err(r.error)
      ensures r.Err? ==> records == old(records)
      ensures r.Ok? ==> r.value.id in records && records[r.value.id] == Readable(r.value)
    {
      hide Validate, WellFormed, Mutate;
      var draft := Validate(definition);
      if draft.None? { return Err(InvalidDefinition); }
      if slug(draft.value.name) == [] { return Err(EmptySlug); }
      var mutated := MutateCustomHome(draft.value.id, expected, draft, now);
      if mutated.Err? { return Err(mutated.error); }
      r := Ok(mutated.value.value);
    }

    method DeleteCustomHome(id: string, expected: int) returns (r: Result<(), Error>)
      modifies this
      ensures Delete(slug, old(records), id, expected) == if r.Ok? then Ok(records) else Err(r.error)
      ensures r.Err? ==> records == old(records)
    {
      hide Mutate;
      var mutated := MutateCustomHome(id, Some(expected), None, 0);
      r := if mutated.Ok? then Ok(()) else Err(mutated.error);
    }

    method ReorderCustomHomes(homes: seq<Value>, clock: nat -> int) returns (r: Result<(), Error>)
      modifies this
      ensures Reorder(old(records), homes, clock) == if r.Ok? then Ok(records) else Err(r.error)
      ensures r.Err? ==> records == old(records)
    {
      hide CheckOrder;
      var checked := CheckOrder(records, homes);
      if checked.Err? { return Err(checked.error); }
      var snapshots := checked.value;
      for navigationOrder := 0 to |snapshots|
        invariant records == PutAll(old(records), snapshots, clock, navigationOrder)
      {
        var snapshot := snapshots[navigationOrder];
        if snapshot.navigationOrder != navigationOrder {
          records := records[snapshot.id := Readable(Moved(snapshot, navigationOrder, clock(navigationOrder)))];
        }
      }
      r := Ok(());
    }

    /** The first loop of the listing: what reads as a home, and the ids of the rest. */
    method ReadRecords(keys: seq<string>) returns (read: seq<Home>, failed: seq<string>)
      requires Enumerates(records, keys)
      ensures read == Collect(Results(records, keys)) && failed == Missing(keys, Results(records, keys))
    {
      hide Validate, WellFormed, Collect, Missing;
      ghost var results := Results(records, keys);
      CollectNone<Home>();
      read, failed := [], [];
      for i := 0 to |keys|
        invariant read == Collect(results[..i]) && failed == Missing(keys[..i], results[..i])
      {
        CollectNext(keys, results, i);
        assert keys[i] in Elements(keys);
        var home := Validate(records[keys[i]]);
        if home.Some? {
          read := read + [home.value];
        } else {
          failed := failed + [keys[i]];
        }
      }
      assert results[..|keys|] == results && keys[..|keys|] == keys;
    }

    /** The listing: the homes in order, and the ids with an issue. */
    method ListCustomHomes(keys: seq<string>, collate: (string, string) -> bool)
      returns (homes: seq<Home>, issues: seq<string>)
      requires Enumerates(records, keys)
      ensures homes == Sort(Collect(Results(records, keys)), ByNavigation(collate))
      ensures issues == Missing(keys, Results(records, keys)) + SlugIssues(slug, homes, |homes|)
    {
      hide Collect, Missing, Results, Sort, ByNavigation, HasSlugIssue;
      var read, failed := ReadRecords(keys);
      homes := Sort(read, ByNavigation(collate));
      issues := failed;
      for i := 0 to |homes|
        invariant issues == failed + SlugIssues(slug, homes, i)
      {
        if HasSlugIssue(slug, homes, homes[i]) {
          issues := issues + [homes[i].id];
        }
      }
    }
  }
}
