/**
 Identities of discovered home content, their ambiguity, and references to
 categories (homeContentIdentity.ts, customHomeReferences.ts, and the resolution
 in useCustomHomeCatalog.ts).
 */
module HomeContentIdentity {
  import opened Wrappers
  import opened Json
  import opened Descriptors

  datatype Basis = Provider | Descriptor | Label

  datatype Identity = Identity(sourceId: string, key: string, basis: Basis, ambiguous: bool)

  // --- Building ------------------------------------------------------------

  const RESERVED := ["name", "source", "page", "current_page", "have_more"]

  /** The request parameters that identify content, without pagination. */
  function Persistent(descriptor: Source): (r: Source)
    ensures |r| <= |descriptor|
  {
    if descriptor == [] then [] else
      var last := descriptor[|descriptor| - 1];
      Persistent(descriptor[..|descriptor| - 1]) + if last.name in RESERVED then [] else [last]
  }

  predicate Truthy(s: Option<string>) {
    s.Some? && s.value != ""
  }

  function BuildHomeContentIdentity(sourceId: Option<string>, providerKey: Option<string>, descriptor: Source,
                                    title: Option<string>, collate: (string, string) -> bool): Option<Identity>
  {
    if !Truthy(sourceId) then None
    else if Truthy(providerKey) then Some(Identity(sourceId.value, "provider:" + providerKey.value, Provider, false))
    else if Persistent(descriptor) != [] then
      Some(Identity(sourceId.value, "descriptor:" + Canonical(Persistent(descriptor), collate), Descriptor, false))
    else if Truthy(title) then Some(Identity(sourceId.value, "label:" + title.value, Label, false))
    else None
  }

  lemma {:induction false} PersistentDistinct(s: Source)
    requires DistinctNames(s)
    ensures DistinctNames(Persistent(s)) && forall i | 0 <= i < |Persistent(s)| :: Persistent(s)[i] in s
  {
    if s != [] {
      var init := s[..|s| - 1];
      PersistentDistinct(init);
      forall i | 0 <= i < |Persistent(init)| ensures Persistent(init)[i].name != s[|s| - 1].name {
        assert Persistent(init)[i] in init;
      }
    }
  }

  /** What an identity key stands for: the provider's key, the request as a map, or the title. */
  datatype Meaning = ByProvider(key: string) | ByRequest(request: map<string, string>) | ByTitle(title: string)

  function MeaningOf(providerKey: Option<string>, descriptor: Source, title: Option<string>): Meaning {
    if Truthy(providerKey) then ByProvider(providerKey.value)
    else if Persistent(descriptor) != [] then ByRequest(ToMap(Persistent(descriptor)))
    else ByTitle(title.GetOr(""))
  }

  lemma PrefixesDiffer(s: string, t: string, u: string)
    ensures "provider:" + s != "descriptor:" + t && "provider:" + s != "label:" + u && "descriptor:" + t != "label:" + u
    ensures ("provider:" + s)[9..] == s && ("descriptor:" + t)[11..] == t && ("label:" + u)[6..] == u
  {
    assert ("provider:" + s)[0] == 'p' && ("descriptor:" + t)[0] == 'd' && ("label:" + u)[0] == 'l';
  }

  /** Two identities of one source are equal exactly when they stand for the same, whatever the order of parameters. */
  lemma SameIdentityIff(sourceId: Option<string>, collate: (string, string) -> bool,
                        k1: Option<string>, d1: Source, t1: Option<string>, k2: Option<string>, d2: Source, t2: Option<string>)
    requires TotalOrder(collate) && DistinctNames(d1) && DistinctNames(d2)
    requires BuildHomeContentIdentity(sourceId, k1, d1, t1, collate).Some?
    requires BuildHomeContentIdentity(sourceId, k2, d2, t2, collate).Some?
    ensures BuildHomeContentIdentity(sourceId, k1, d1, t1, collate) == BuildHomeContentIdentity(sourceId, k2, d2, t2, collate)
       <==> MeaningOf(k1, d1, t1) == MeaningOf(k2, d2, t2)
  {
    hide Canonical, Persistent, TotalOrder, DistinctNames, ToMap;
    var p1, p2 := Persistent(d1), Persistent(d2);
    PersistentDistinct(d1);
    PersistentDistinct(d2);
    CanonicalIff(p1, p2, collate);
    PrefixesDiffer(k1.GetOr(""), Canonical(p1, collate), t1.GetOr(""));
    PrefixesDiffer(k2.GetOr(""), Canonical(p2, collate), t2.GetOr(""));
    PrefixesDiffer(k1.GetOr(""), Canonical(p2, collate), t2.GetOr(""));
    PrefixesDiffer(k2.GetOr(""), Canonical(p1, collate), t1.GetOr(""));
    PrefixesDiffer(k2.GetOr(""), Canonical(p1, collate), t2.GetOr(""));
    PrefixesDiffer(k1.GetOr(""), Canonical(p2, collate), t1.GetOr(""));
  }

  // --- Ambiguity -----------------------------------------------------------

  type Entries = seq<Option<Identity>>

  function IdentityText(id: Identity): string {
    Print(Arr([Str(id.sourceId), Str(id.key)]))
  }

  predicate SameContent(a: Identity, b: Identity) {
    a.sourceId == b.sourceId && a.key == b.key
  }

  lemma IdentityTextIff(a: Identity, b: Identity)
    ensures IdentityText(a) == IdentityText(b) <==> SameContent(a, b)
  {
    var v, w := Arr([Str(a.sourceId), Str(a.key)]), Arr([Str(b.sourceId), Str(b.key)]);
    hide Print;
    if Print(v) == Print(w) {
      PrintInjective(v, w);
      assert v.items[0] == w.items[0] && v.items[1] == w.items[1];
    }
  }

  /** Another entry has the source and key of entry `i`. */
  predicate HasTwin(entries: Entries, i: nat)
    requires i < |entries|
  {
    && entries[i].Some?
    && exists j | 0 <= j < |entries| && j != i :: entries[j].Some? && SameContent(entries[i].value, entries[j].value)
  }

  /** Every identity marked by the presence of a twin. */
  function Marked(entries: Entries): (r: Entries)
    ensures |r| == |entries|
    ensures forall i | 0 <= i < |r| ::
              r[i] == if entries[i].Some? then Some(entries[i].value.(ambiguous := HasTwin(entries, i))) else None
  {
    seq(|entries|, i requires 0 <= i < |entries| =>
      if entries[i].Some? then Some(entries[i].value.(ambiguous := HasTwin(entries, i))) else None)
  }

  /** How often a text occurs among the first `n` entries. */
  function Occurrences(entries: Entries, n: nat, text: string): nat
    requires n <= |entries|
  {
    if n == 0 then 0 else
      Occurrences(entries, n - 1, text)
      + if entries[n - 1].Some? && IdentityText(entries[n - 1].value) == text then 1 else 0
  }

  predicate OccursAt(entries: Entries, i: nat, text: string) {
    i < |entries| && entries[i].Some? && IdentityText(entries[i].value) == text
  }

  lemma {:induction false} OccurrenceFound(entries: Entries, n: nat, text: string)
    requires n <= |entries|
    ensures Occurrences(entries, n, text) > 0 <==> exists i: nat :: i < n && OccursAt(entries, i, text)
  {
    hide IdentityText;
    if n > 0 {
      OccurrenceFound(entries, n - 1, text);
      var last := n - 1;
      assert OccursAt(entries, last, text) <==> Occurrences(entries, n, text) > Occurrences(entries, n - 1, text);
      if Occurrences(entries, n - 1, text) > 0 {
        var i: nat :| i < n - 1 && OccursAt(entries, i, text);
        assert i < n && OccursAt(entries, i, text);
      }
    }
  }

  lemma {:induction false} TwoOccurrences(entries: Entries, n: nat, i: nat, text: string)
    requires i < n <= |entries| && OccursAt(entries, i, text)
    ensures Occurrences(entries, n, text) > 1 <==> exists j: nat :: j < n && j != i && OccursAt(entries, j, text)
  {
    hide IdentityText;
    OccurrenceFound(entries, n - 1, text);
    var last := n - 1;
    if i < last {
      TwoOccurrences(entries, last, i, text);
      assert Occurrences(entries, last, text) > 0;
      assert OccursAt(entries, last, text) ==> Occurrences(entries, n, text) > 1;
    }
    if Occurrences(entries, last, text) > (if i < last then 1 else 0) {
      var j: nat :| j < last && j != i && OccursAt(entries, j, text);
      assert j < n;
    }
  }

  lemma TwinByCount(entries: Entries, i: nat)
    requires i < |entries| && entries[i].Some?
    ensures HasTwin(entries, i) <==> Occurrences(entries, |entries|, IdentityText(entries[i].value)) > 1
  {
    hide IdentityText, Occurrences;
    var text := IdentityText(entries[i].value);
    assert OccursAt(entries, i, text);
    TwoOccurrences(entries, |entries|, i, text);
    forall j: nat | j < |entries| && entries[j].Some?
      ensures OccursAt(entries, j, text) <==> SameContent(entries[i].value, entries[j].value)
    {
      IdentityTextIff(entries[j].value, entries[i].value);
    }
  }

  /** The two passes of the program: count in a map, then write every flag in place. */
  method MarkAmbiguousHomeIdentities(entries: array<Option<Identity>>)
    modifies entries
    ensures entries[..] == Marked(old(entries[..]))
  {
    hide IdentityText, HasTwin;
    ghost var before := entries[..];
    var counts: map<string, nat> := map[];
    for i := 0 to entries.Length
      invariant entries[..] == before
      invariant forall text :: (if text in counts then counts[text] else 0) == Occurrences(before, i, text)
    {
      if entries[i].Some? {
        var text := IdentityText(entries[i].value);
        counts := counts[text := (if text in counts then counts[text] else 0) + 1];
      }
    }
    for i := 0 to entries.Length
      invariant forall k | 0 <= k < i :: entries[k] == Marked(before)[k]
      invariant forall k | i <= k < entries.Length :: entries[k] == before[k]
    {
      if entries[i].Some? {
        var id := entries[i].value;
        var text := IdentityText(id);
        TwinByCount(before, i);
        entries[i] := Some(id.(ambiguous := (if text in counts then counts[text] else 0) > 1));
      }
    }
  }

  // --- References ----------------------------------------------------------

  datatype Category = Category(identity: Option<Identity>, sources: seq<Source>, title: string)

  datatype Reference = Reference(sourceId: string, categoryKey: string, descriptor: Source, labelSnapshot: string)

  /** None where the program throws. */
  function CreateCategoryReference(c: Category): Option<Reference> {
    if c.identity.None? || c.identity.value.ambiguous then None
    else
      var id := c.identity.value;
      if |c.sources| != 1 || "name" !in ToMap(c.sources[0]) || ToMap(c.sources[0])["name"] != id.sourceId then None
      else Some(Reference(id.sourceId, id.key, c.sources[0], c.title))
  }

  predicate Answers(c: Category, key: string) {
    c.identity.Some? && c.identity.value.key == key && !c.identity.value.ambiguous
  }

  /** The positions `filter` keeps. */
  function Answering(categories: seq<Category>, key: string): (r: seq<nat>)
    ensures forall i | 0 <= i < |r| :: r[i] < |categories| && Answers(categories[r[i]], key)
  {
    if categories == [] then [] else
      var n := |categories| - 1;
      Answering(categories[..n], key) + if Answers(categories[n], key) then [n] else []
  }

  /** The one category a saved key leads to, or None where the program throws. */
  function ResolveCategory(categories: seq<Category>, key: string): Option<nat> {
    var matches := Answering(categories, key);
    if |matches| == 1 then Some(matches[0]) else None
  }

  lemma AnsweringLast(categories: seq<Category>, key: string)
    requires categories != []
    ensures var n := |categories| - 1; var init := Answering(categories[..n], key);
            Answering(categories, key) == init + (if Answers(categories[n], key) then [n] else []) && forall k | k in init :: k < n
  {
    hide Answers;
  }

  lemma {:induction false} AnsweringHolds(categories: seq<Category>, key: string, i: nat)
    requires i < |categories|
    ensures i in Answering(categories, key) <==> Answers(categories[i], key)
  {
    hide Answers, Answering;
    var n := |categories| - 1;
    AnsweringLast(categories, key);
    if i < n {
      AnsweringHolds(categories[..n], key, i);
    }
  }

  /** A position is the only one `filter` keeps exactly when its category answers and no other does. */
  lemma {:induction false} AnsweringIs(categories: seq<Category>, key: string, i: nat)
    requires i < |categories|
    ensures i in Answering(categories, key) <==> Answers(categories[i], key)
    ensures |Answering(categories, key)| == 1 && i in Answering(categories, key) <==>
              Answers(categories[i], key) && forall j | 0 <= j < |categories| && j != i :: !Answers(categories[j], key)
  {
    hide Answers, Answering;
    var n := |categories| - 1;
    AnsweringHolds(categories, key, i);
    AnsweringLast(categories, key);
    NoneAnswer(categories[..n], key);
    assert forall j | 0 <= j < n :: categories[..n][j] == categories[j];
    if i < n {
      AnsweringIs(categories[..n], key, i);
    }
  }

  lemma {:induction false} NoneAnswer(categories: seq<Category>, key: string)
    ensures Answering(categories, key) == [] <==> forall j | 0 <= j < |categories| :: !Answers(categories[j], key)
  {
    hide Answers;
    if categories != [] {
      var n := |categories| - 1;
      NoneAnswer(categories[..n], key);
      assert forall j | 0 <= j < n :: categories[..n][j] == categories[j];
    }
  }

  function Identities(categories: seq<Category>): (r: Entries)
    ensures |r| == |categories| && forall i | 0 <= i < |r| :: r[i] == categories[i].identity
  {
    seq(|categories|, i requires 0 <= i < |categories| => categories[i].identity)
  }

  /** The categories of a catalog are marked. */
  ghost predicate IsMarked(categories: seq<Category>) {
    Marked(Identities(categories)) == Identities(categories)
  }

  /**
   In a marked catalog, a category for which a reference can be created resolves
   back to itself exactly when no category of another source has an unambiguous
   identity with the same key.
   */
  lemma ReferenceResolvesIff(categories: seq<Category>, i: nat)
    requires IsMarked(categories) && i < |categories| && CreateCategoryReference(categories[i]).Some?
    ensures ResolveCategory(categories, CreateCategoryReference(categories[i]).value.categoryKey) == Some(i) <==>
              forall j | 0 <= j < |categories| && Answers(categories[j], categories[i].identity.value.key) ::
                categories[j].identity.value.sourceId == categories[i].identity.value.sourceId
  {
    hide ToMap, Answering;
    var id := categories[i].identity.value;
    AnsweringIs(categories, id.key, i);
    forall j | 0 <= j < |categories| && j != i && Answers(categories[j], id.key)
      ensures categories[j].identity.value.sourceId != id.sourceId
    {
      assert Identities(categories)[i] == Some(id) && Identities(categories)[j] == categories[j].identity;
      assert !HasTwin(Identities(categories), i);
    }
    if ResolveCategory(categories, id.key) == Some(i) {
      assert i in Answering(categories, id.key);
    }
  }

  /** In the catalog of a single source every reference resolves to exactly the category it was made from. */
  lemma ReferenceResolves(categories: seq<Category>, i: nat, sourceId: string)
    requires IsMarked(categories) && i < |categories| && CreateCategoryReference(categories[i]).Some?
    requires forall j | 0 <= j < |categories| && categories[j].identity.Some? :: categories[j].identity.value.sourceId == sourceId
    ensures ResolveCategory(categories, CreateCategoryReference(categories[i]).value.categoryKey) == Some(i)
  {
    hide ToMap, ResolveCategory, IsMarked;
    ReferenceResolvesIff(categories, i);
  }

  /** Marking twice, or marking what is marked, changes nothing. */
  lemma MarkingIsIdempotent(entries: Entries)
    ensures Marked(Marked(entries)) == Marked(entries)
  {
    forall i | 0 <= i < |entries| ensures HasTwin(Marked(entries), i) == HasTwin(entries, i) {
      assert forall j | 0 <= j < |entries| && entries[j].Some? ::
          Marked(entries)[j].value.sourceId == entries[j].value.sourceId && Marked(entries)[j].value.key == entries[j].value.key;
    }
  }
}
