/** The registry of media routes and target identities (mediaRouting.ts). */
module MediaRouting {
  import opened Wrappers
  import opened TextUtils
  import opened Sequences
  import opened Sorting
  import opened StableGrouping
  import opened Json
  import opened Descriptors

  datatype Handler = EntryHandler | CollectionHandler | LiveHandler

  /** A raw media type; other values than strings count as unsupported. */
  datatype RawType = Text(s: string) | NoText

  // --- Types ---------------------------------------------------------------

  /** Unicode lower case, which stays abstract. */
  type LowerCase = string -> string

  function Canonicalized(raw: RawType, lower: LowerCase): string {
    match raw
    case Text(s) => lower(Trim(s))
    case NoText => "unsupported"
  }

  function NonEmpty(xs: seq<string>): (r: seq<string>) {
    if xs == [] then [] else
      NonEmpty(xs[..|xs| - 1]) + if xs[|xs| - 1] != "" then [xs[|xs| - 1]] else []
  }

  /** Trimmed lower-case types without repetition, in order of first occurrence. */
  function NormalizeMediaTypes(values: seq<RawType>, lower: LowerCase): seq<string> {
    FirstKeys(NonEmpty(seq(|values|, i requires 0 <= i < |values| => Canonicalized(values[i], lower))), (t: string) => t)
  }

  /** Exact rules first, then families. */
  datatype Rule = Exact(mediaType: string, handler: Handler) | Family(mediaType: string, handler: Handler)

  const RULES := [
    Exact("collection", CollectionHandler), Exact("video/live", LiveHandler),
    Family("video", EntryHandler), Family("audio", EntryHandler), Family("images", EntryHandler)]

  predicate InFamily(mediaType: string, family: string) {
    mediaType == family || family + "/" <= mediaType
  }

  predicate RuleMatches(rule: Rule, mediaType: string) {
    match rule
    case Exact(exact, _) => exact == mediaType
    case Family(family, _) => InFamily(mediaType, family)
  }

  /** The handler of the first rule that matches. */
  function FindRule(rules: seq<Rule>, mediaType: string): Option<Handler> {
    if rules == [] then None
    else if RuleMatches(rules[0], mediaType) then Some(rules[0].handler)
    else FindRule(rules[1..], mediaType)
  }

  function HandlerOf(mediaType: string): Option<Handler> {
    FindRule(RULES, mediaType)
  }

  function ResolveTypes(types: seq<string>): Option<Handler> {
    if types == [] then Some(EntryHandler)
    else if exists t | t in types :: HandlerOf(t).None? then None
    else if forall t | t in types :: HandlerOf(t) == HandlerOf(types[0]) then HandlerOf(types[0])
    else if (forall t | t in types :: InFamily(t, "video")) && (exists t | t in types :: HandlerOf(t) == Some(LiveHandler))
    then Some(LiveHandler)
    else None
  }

  /** The decision as a rule on the set of types alone. */
  function ResolveSet(types: set<string>): Option<Handler> {
    if types == {} then Some(EntryHandler)
    else if forall t | t in types :: HandlerOf(t) == Some(EntryHandler) then Some(EntryHandler)
    else if forall t | t in types :: HandlerOf(t) == Some(CollectionHandler) then Some(CollectionHandler)
    else if (forall t | t in types :: HandlerOf(t).Some?) && (exists t | t in types :: HandlerOf(t) == Some(LiveHandler))
         && (forall t | t in types :: InFamily(t, "video")) then Some(LiveHandler)
    else None
  }

  lemma LiveIsVideo(t: string)
    requires HandlerOf(t) == Some(LiveHandler)
    ensures t == "video/live" && InFamily(t, "video")
  {
    RulesApplied(t);
    assert "video/" <= "video/live";
  }

  /** The registry, rule by rule. */
  lemma RulesApplied(t: string)
    ensures HandlerOf(t) ==
              if t == "collection" then Some(CollectionHandler)
              else if t == "video/live" then Some(LiveHandler)
              else if InFamily(t, "video") || InFamily(t, "audio") || InFamily(t, "images") then Some(EntryHandler)
              else None
  {
    var r := RULES;
    hide InFamily;
    assert FindRule(r[5..], t) == None;
    FindNext(r, 4, t);
    FindNext(r, 3, t);
    FindNext(r, 2, t);
    FindNext(r, 1, t);
    FindNext(r, 0, t);
    assert r[0..] == r;
  }

  lemma FindNext(rules: seq<Rule>, i: nat, t: string)
    requires i < |rules|
    ensures FindRule(rules[i..], t) == if RuleMatches(rules[i], t) then Some(rules[i].handler) else FindRule(rules[i + 1..], t)
  {
    assert rules[i..][1..] == rules[i + 1..];
  }

  lemma UnknownType(types: seq<string>, t: string)
    requires t in types && HandlerOf(t).None?
    ensures ResolveTypes(types) == None && ResolveSet(Elements(types)) == None
  {
    hide HandlerOf, InFamily;
    assert t in Elements(types);
  }

  lemma MixedTypes(types: seq<string>, t: string)
    requires t in types && HandlerOf(t) != HandlerOf(types[0]) && forall u | u in types :: HandlerOf(u).Some?
    ensures ResolveTypes(types) == ResolveSet(Elements(types))
  {
    hide HandlerOf, InFamily;
    var all := Elements(types);
    assert t in all && types[0] in all;
    assert forall u :: u in all <==> u in types;
    assert (exists u | u in types :: HandlerOf(u) == Some(LiveHandler)) <==> (exists u | u in all :: HandlerOf(u) == Some(LiveHandler));
    assert (forall u | u in types :: InFamily(u, "video")) <==> (forall u | u in all :: InFamily(u, "video"));
  }

  /** Order and repetition of the types never matter: the decision is that of the rule on their set. */
  lemma RoutingDependsOnSet(types: seq<string>)
    ensures ResolveTypes(types) == ResolveSet(Elements(types))
  {
    hide HandlerOf, InFamily, ResolveSet;
    if types == [] {
      NoTypes(types);
    } else if t :| t in types && HandlerOf(t).None? {
      UnknownType(types, t);
    } else if t :| t in types && HandlerOf(t) != HandlerOf(types[0]) {
      MixedTypes(types, t);
    } else {
      AllAlike(types);
      assert types[0] in types;
      assert ResolveTypes(types) == HandlerOf(types[0]);
    }
  }

  lemma NoTypes(types: seq<string>)
    requires types == []
    ensures ResolveTypes(types) == ResolveSet(Elements(types)) == Some(EntryHandler)
  {
    assert Elements(types) == {};
  }

  lemma AllAlike(types: seq<string>)
    requires types != [] && HandlerOf(types[0]).Some? && forall t | t in types :: HandlerOf(t) == HandlerOf(types[0])
    ensures ResolveSet(Elements(types)) == HandlerOf(types[0])
  {
    hide HandlerOf, InFamily;
    var all := Elements(types);
    assert types[0] in all;
    assert forall t | t in all :: HandlerOf(t) == HandlerOf(types[0]);
    match HandlerOf(types[0]).value {
      case EntryHandler =>
      case CollectionHandler =>
      case LiveHandler =>
        forall t | t in all ensures InFamily(t, "video") {
          LiveIsVideo(t);
        }
    }
  }

  lemma {:induction false} NonEmptyHolds(xs: seq<string>, x: string)
    ensures x in NonEmpty(xs) <==> x in xs && x != ""
  {
    if xs != [] {
      NonEmptyHolds(xs[..|xs| - 1], x);
      InLast(xs, x);
    }
  }

  /** Normalisation keeps exactly the non-empty canonical types, each once. */
  lemma NormalizedTypes(values: seq<RawType>, lower: LowerCase, t: string)
    ensures t in NormalizeMediaTypes(values, lower) <==>
              t != "" && exists i :: 0 <= i < |values| && Canonicalized(values[i], lower) == t
    ensures Distinct(NormalizeMediaTypes(values, lower))
  {
    hide Canonicalized, NonEmpty, FirstKeys;
    var texts := seq(|values|, i requires 0 <= i < |values| => Canonicalized(values[i], lower));
    var same := (t: string) => t;
    NonEmptyHolds(texts, t);
    KeysOccur(NonEmpty(texts), same, t);
    KeysDistinct(NonEmpty(texts), same);
    assert Occurs(NonEmpty(texts), same, t) <==> t in NonEmpty(texts);
    assert forall i | 0 <= i < |values| :: texts[i] == Canonicalized(values[i], lower);
  }

  /** The same values, in any order and however often, are routed alike. */
  lemma RoutingIgnoresOrder(xs: seq<RawType>, ys: seq<RawType>, lower: LowerCase)
    requires Elements(xs) == Elements(ys)
    ensures ResolveTypes(NormalizeMediaTypes(xs, lower)) == ResolveTypes(NormalizeMediaTypes(ys, lower))
  {
    hide Canonicalized, ResolveTypes, ResolveSet, NormalizeMediaTypes;
    var s, t := NormalizeMediaTypes(xs, lower), NormalizeMediaTypes(ys, lower);
    forall x ensures x in s <==> x in t {
      NormalizedTypes(xs, lower, x);
      NormalizedTypes(ys, lower, x);
      if x in s {
        SameCanonical(xs, ys, lower, x);
      }
      if x in t {
        SameCanonical(ys, xs, lower, x);
      }
    }
    assert Elements(s) == Elements(t);
    RoutingDependsOnSet(s);
    RoutingDependsOnSet(t);
  }

  lemma SameCanonical(xs: seq<RawType>, ys: seq<RawType>, lower: LowerCase, t: string)
    requires Elements(xs) <= Elements(ys) && exists i :: 0 <= i < |xs| && Canonicalized(xs[i], lower) == t
    ensures exists i :: 0 <= i < |ys| && Canonicalized(ys[i], lower) == t
  {
    var i :| 0 <= i < |xs| && Canonicalized(xs[i], lower) == t;
    assert xs[i] in Elements(ys);
    var j :| 0 <= j < |ys| && ys[j] == xs[i];
    assert Canonicalized(ys[j], lower) == t;
  }

  // --- Collection targets --------------------------------------------------

  function Property(s: Source, name: string): Option<string> {
    if name in ToMap(s) then Some(ToMap(s)[name]) else None
  }

  predicate HasRequest(s: Source) {
    exists i | 0 <= i < |s| :: s[i].name != "name" && s[i].name != "source" && Trim(s[i].value) != ""
  }

  predicate ValidSource(s: Source) {
    var id := if Property(s, "name").Some? then Property(s, "name") else Property(s, "source");
    id.Some? && Trim(id.value) != "" && HasRequest(s)
  }

  predicate ValidCategory(sources: seq<Source>) {
    sources != [] && forall i | 0 <= i < |sources| :: ValidSource(sources[i])
  }

  function Texts(sources: seq<Source>, collate: (string, string) -> bool): (r: seq<string>)
    ensures |r| == |sources| && forall i | 0 <= i < |r| :: r[i] == Canonical(sources[i], collate)
  {
    seq(|sources|, i requires 0 <= i < |sources| => Canonical(sources[i], collate))
  }

  function StringsValue(xs: seq<string>): (r: Value)
    ensures r.Arr? && |r.items| == |xs| && forall i | 0 <= i < |xs| :: r.items[i] == Str(xs[i])
  {
    Arr(seq(|xs|, i requires 0 <= i < |xs| => Str(xs[i])))
  }

  /** `codeUnits` is the default order of the array sort. */
  function CollectionIdentity(sources: seq<Source>, collate: (string, string) -> bool, codeUnits: (string, string) -> bool)
    : Option<string>
  {
    if ValidCategory(sources) then Some("get_category:" + Print(StringsValue(Sort(Texts(sources, collate), codeUnits)))) else None
  }

  function Maps(sources: seq<Source>): (r: seq<map<string, string>>)
    ensures |r| == |sources| && forall i | 0 <= i < |r| :: r[i] == ToMap(sources[i])
  {
    seq(|sources|, i requires 0 <= i < |sources| => ToMap(sources[i]))
  }

  ghost predicate AllDistinctNames(sources: seq<Source>) {
    forall i | 0 <= i < |sources| :: DistinctNames(sources[i])
  }

  lemma StringsValueInjective(xs: seq<string>, ys: seq<string>)
    ensures Print(StringsValue(xs)) == Print(StringsValue(ys)) <==> xs == ys
  {
    hide Print;
    if Print(StringsValue(xs)) == Print(StringsValue(ys)) {
      PrintInjective(StringsValue(xs), StringsValue(ys));
      forall i | 0 <= i < |xs| ensures xs[i] == ys[i] {
        assert StringsValue(xs).items[i] == StringsValue(ys).items[i];
      }
    }
  }

  lemma TextsNameMaps(xs: seq<Source>, ys: seq<Source>, collate: (string, string) -> bool)
    requires TotalOrder(collate) && AllDistinctNames(xs) && AllDistinctNames(ys)
    ensures SameNaming(Texts(xs, collate), Maps(xs), Texts(ys, collate), Maps(ys))
  {
    hide Canonical, ToMap, TotalOrder;
    forall i, j | 0 <= i < |xs| && 0 <= j < |ys|
      ensures Texts(xs, collate)[i] == Texts(ys, collate)[j] <==> Maps(xs)[i] == Maps(ys)[j]
    {
      CanonicalIff(xs[i], ys[j], collate);
    }
  }

  lemma NamingReversed<T, U>(xs: seq<T>, us: seq<U>, ys: seq<T>, vs: seq<U>)
    requires SameNaming(xs, us, ys, vs)
    ensures SameNaming(us, xs, vs, ys)
  {
  }

  lemma SortedTextsIff(xs: seq<Source>, ys: seq<Source>, collate: (string, string) -> bool, codeUnits: (string, string) -> bool)
    requires TotalOrder(collate) && TotalOrder(codeUnits) && AllDistinctNames(xs) && AllDistinctNames(ys)
    ensures Sort(Texts(xs, collate), codeUnits) == Sort(Texts(ys, collate), codeUnits)
       <==> multiset(Maps(xs)) == multiset(Maps(ys))
  {
    hide Canonical, ToMap, Sort, TotalPreorder;
    var a, b := Texts(xs, collate), Texts(ys, collate);
    SortIsCanonical(a, b, codeUnits);
    TextsNameMaps(xs, ys, collate);
    NamingReversed(a, Maps(xs), b, Maps(ys));
    if multiset(a) == multiset(b) {
      NamesPermute(a, Maps(xs), b, Maps(ys));
    }
    if multiset(Maps(xs)) == multiset(Maps(ys)) {
      NamesPermute(Maps(xs), a, Maps(ys), b);
    }
  }

  /**
   Two valid collection targets have one identity exactly when their source
   descriptors are the same multiset of name-value maps.
   */
  lemma CollectionIdentityIff(xs: seq<Source>, ys: seq<Source>, collate: (string, string) -> bool,
                              codeUnits: (string, string) -> bool)
    requires TotalOrder(collate) && TotalOrder(codeUnits) && AllDistinctNames(xs) && AllDistinctNames(ys)
    requires ValidCategory(xs) && ValidCategory(ys)
    ensures CollectionIdentity(xs, collate, codeUnits) == CollectionIdentity(ys, collate, codeUnits)
       <==> multiset(Maps(xs)) == multiset(Maps(ys))
  {
    hide Print, Sort, TotalOrder, ValidCategory, AllDistinctNames;
    var a, b := Sort(Texts(xs, collate), codeUnits), Sort(Texts(ys, collate), codeUnits);
    SortedTextsIff(xs, ys, collate, codeUnits);
    StringsValueInjective(a, b);
    var s, t := Print(StringsValue(a)), Print(StringsValue(b));
    assert ("get_category:" + s)[|"get_category:"|..] == s && ("get_category:" + t)[|"get_category:"|..] == t;
  }

  // --- Entries, lives and the whole registry --------------------------------

  datatype Target = Target(
    types: seq<RawType>, source: Option<string>, entryUrl: Option<string>,
    category: Option<seq<Source>>, live: Option<(string, string)>)

  predicate Present(s: Option<string>) {
    s.Some? && Trim(s.value) != ""
  }

  function PairIdentity(operation: string, a: string, b: string): string {
    operation + Print(Arr([Str(a), Str(b)]))
  }

  /** The explicit live descriptor, or the historical opaque link. */
  function LiveTarget(t: Target): Option<(string, string)> {
    if t.live.Some? then
      if Trim(t.live.value.0) != "" && Trim(t.live.value.1) != "" then t.live else None
    else if Present(t.source) && Present(t.entryUrl) then Some((t.source.value, t.entryUrl.value))
    else None
  }

  function MediaRouteIdentity(t: Target, lower: LowerCase, collate: (string, string) -> bool,
                              codeUnits: (string, string) -> bool): Option<string>
  {
    match ResolveTypes(NormalizeMediaTypes(t.types, lower))
    case None => None
    case Some(EntryHandler) =>
      if Present(t.source) && Present(t.entryUrl) then Some(PairIdentity("get_entry:", t.source.value, t.entryUrl.value)) else None
    case Some(CollectionHandler) =>
      if t.category.Some? then CollectionIdentity(t.category.value, collate, codeUnits) else None
    case Some(LiveHandler) =>
      var live := LiveTarget(t);
      if live.Some? then Some(PairIdentity("get_live:", live.value.0, live.value.1)) else None
  }

  lemma PairIdentityInjective(operation: string, a: string, b: string, c: string, d: string)
    ensures PairIdentity(operation, a, b) == PairIdentity(operation, c, d) <==> a == c && b == d
  {
    var v, w := Arr([Str(a), Str(b)]), Arr([Str(c), Str(d)]);
    if PairIdentity(operation, a, b) == PairIdentity(operation, c, d) {
      assert PairIdentity(operation, a, b)[|operation|..] == Print(v);
      assert PairIdentity(operation, c, d)[|operation|..] == Print(w);
      hide Print;
      PrintInjective(v, w);
      assert v.items[0] == w.items[0] && v.items[1] == w.items[1];
    }
  }

  /** What an openable target stands for. */
  datatype Meaning = MeansEntry(source: string, url: string) | MeansCollection(maps: multiset<map<string, string>>)
                   | MeansLive(source: string, channel: string)

  ghost function TargetMeaning(t: Target, lower: LowerCase): Option<Meaning> {
    match ResolveTypes(NormalizeMediaTypes(t.types, lower))
    case None => None
    case Some(EntryHandler) =>
      if Present(t.source) && Present(t.entryUrl) then Some(MeansEntry(t.source.value, t.entryUrl.value)) else None
    case Some(CollectionHandler) =>
      if t.category.Some? && ValidCategory(t.category.value) then Some(MeansCollection(multiset(Maps(t.category.value)))) else None
    case Some(LiveHandler) =>
      var live := LiveTarget(t);
      if live.Some? then Some(MeansLive(live.value.0, live.value.1)) else None
  }

  /** Two openable targets have one identity exactly when they stand for the same thing, across all handlers. */
  lemma IdentityIff(s: Target, t: Target, lower: LowerCase, collate: (string, string) -> bool, codeUnits: (string, string) -> bool)
    requires TotalOrder(collate) && TotalOrder(codeUnits)
    requires s.category.Some? ==> AllDistinctNames(s.category.value)
    requires t.category.Some? ==> AllDistinctNames(t.category.value)
    requires MediaRouteIdentity(s, lower, collate, codeUnits).Some? && MediaRouteIdentity(t, lower, collate, codeUnits).Some?
    ensures MediaRouteIdentity(s, lower, collate, codeUnits) == MediaRouteIdentity(t, lower, collate, codeUnits)
       <==> TargetMeaning(s, lower) == TargetMeaning(t, lower)
  {
    hide ResolveTypes, NormalizeMediaTypes, Print, Sort, TotalOrder, ValidCategory, AllDistinctNames, Trim;
    var f, g := ResolveTypes(NormalizeMediaTypes(s.types, lower)).value, ResolveTypes(NormalizeMediaTypes(t.types, lower)).value;
    var a, b := MediaRouteIdentity(s, lower, collate, codeUnits).value, MediaRouteIdentity(t, lower, collate, codeUnits).value;
    if f == g {
      match f {
        case EntryHandler =>
          PairIdentityInjective("get_entry:", s.source.value, s.entryUrl.value, t.source.value, t.entryUrl.value);
        case CollectionHandler =>
          CollectionIdentityIff(s.category.value, t.category.value, collate, codeUnits);
        case LiveHandler =>
          var x, y := LiveTarget(s).value, LiveTarget(t).value;
          PairIdentityInjective("get_live:", x.0, x.1, y.0, y.1);
      }
    } else {
      TextByHandler(s, lower, collate, codeUnits);
      TextByHandler(t, lower, collate, codeUnits);
    }
  }

  /** The fifth character of an identity tells its handler. */
  lemma TextByHandler(t: Target, lower: LowerCase, collate: (string, string) -> bool, codeUnits: (string, string) -> bool)
    requires MediaRouteIdentity(t, lower, collate, codeUnits).Some?
    ensures ResolveTypes(NormalizeMediaTypes(t.types, lower)).Some?
    ensures var id := MediaRouteIdentity(t, lower, collate, codeUnits).value;
            |id| > 4 && id[4] == match ResolveTypes(NormalizeMediaTypes(t.types, lower)).value
                                case EntryHandler => 'e' case CollectionHandler => 'c' case LiveHandler => 'l'
  {
    hide ResolveTypes, NormalizeMediaTypes, Print, Sort, ValidCategory, Trim, Texts, StringsValue;
  }
}
