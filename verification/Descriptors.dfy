/**
 Source descriptors, flat string records, and their canonical text: the entries
 sorted by name, printed as JSON.
 */
module Descriptors {
  import opened Wrappers
  import opened Sequences
  import opened Sorting
  import opened Json

  datatype Param = Param(name: string, value: string)

  /** A source descriptor as its properties in order. */
  type Source = seq<Param>

  /** As an object has them, no two properties with one name. */
  predicate DistinctNames(s: Source) {
    forall i, j | 0 <= i < j < |s| :: s[i].name != s[j].name
  }

  /** What the descriptor says, without the order of its properties. */
  function ToMap(s: Source): map<string, string> {
    if s == [] then map[] else ToMap(s[..|s| - 1])[s[|s| - 1].name := s[|s| - 1].value]
  }

  function ByName(collate: (string, string) -> bool): (Param, Param) -> bool {
    (a: Param, b: Param) => collate(a.name, b.name)
  }

  /** The collation of names is a total order. */
  ghost predicate TotalOrder(collate: (string, string) -> bool) {
    TotalPreorder(collate) && forall a, b :: collate(a, b) && collate(b, a) ==> a == b
  }

  function EntryValue(p: Param): Value {
    Arr([Str(p.name), Str(p.value)])
  }

  function EntriesValue(s: Source): (r: Value)
    ensures r.Arr? && |r.items| == |s| && forall i | 0 <= i < |s| :: r.items[i] == EntryValue(s[i])
  {
    Arr(seq(|s|, i requires 0 <= i < |s| => EntryValue(s[i])))
  }

  function Canonical(s: Source, collate: (string, string) -> bool): string {
    Print(EntriesValue(Sort(s, ByName(collate))))
  }

  lemma EntriesArePlain(s: Source)
    ensures Plain(EntriesValue(s))
  {
    forall i | 0 <= i < |s| ensures Plain(EntriesValue(s).items[i]) {
      assert Plain(Str(s[i].name)) && Plain(Str(s[i].value));
    }
  }

  lemma EntriesValueInjective(s: Source, t: Source)
    ensures EntriesValue(s) == EntriesValue(t) <==> s == t
  {
    if EntriesValue(s) == EntriesValue(t) {
      forall i | 0 <= i < |s| ensures s[i] == t[i] {
        assert EntryValue(s[i]) == EntryValue(t[i]);
      }
    }
  }

  lemma ByNameIsTotal(collate: (string, string) -> bool)
    requires TotalOrder(collate)
    ensures TotalPreorder(ByName(collate))
  {
    var leq := ByName(collate);
    forall a, b ensures leq(a, b) || leq(b, a) {
      assert collate(a.name, b.name) || collate(b.name, a.name);
    }
    forall a, b, c | leq(a, b) && leq(b, c) ensures leq(a, c) {
      assert collate(a.name, b.name) && collate(b.name, c.name) ==> collate(a.name, c.name);
    }
  }

  lemma {:induction false} ToMapHolds(s: Source, p: Param)
    requires DistinctNames(s)
    ensures p in s <==> p.name in ToMap(s) && ToMap(s)[p.name] == p.value
    ensures p.name in ToMap(s) <==> exists i :: 0 <= i < |s| && s[i].name == p.name
  {
    if s != [] {
      var init, last := s[..|s| - 1], s[|s| - 1];
      ToMapHolds(init, p);
      InLast(s, p);
      ToMapHolds(init, last);
      assert last.name !in ToMap(init);
      assert forall i | 0 <= i < |init| :: init[i] == s[i];
    }
  }

  lemma MapByElements(s: Source, t: Source)
    requires DistinctNames(s) && DistinctNames(t)
    ensures ToMap(s) == ToMap(t) <==> Elements(s) == Elements(t)
  {
    if ToMap(s) == ToMap(t) {
      forall p ensures p in s <==> p in t {
        ToMapHolds(s, p);
        ToMapHolds(t, p);
      }
    }
    if Elements(s) == Elements(t) {
      forall name ensures name in ToMap(s) <==> name in ToMap(t) {
        if name in ToMap(s) {
          SameNames(s, t, name);
        }
        if name in ToMap(t) {
          SameNames(t, s, name);
        }
      }
      forall name | name in ToMap(s) ensures ToMap(s)[name] == ToMap(t)[name] {
        var p := Param(name, ToMap(s)[name]);
        ToMapHolds(s, p);
        ToMapHolds(t, p);
        assert p in Elements(s);
      }
    }
  }

  lemma SameNames(s: Source, t: Source, name: string)
    requires DistinctNames(s) && DistinctNames(t) && Elements(s) <= Elements(t) && name in ToMap(s)
    ensures name in ToMap(t)
  {
    var p := Param(name, ToMap(s)[name]);
    ToMapHolds(s, p);
    assert p in Elements(t);
    ToMapHolds(t, p);
  }

  /** The canonical text tells exactly what the descriptor says: not more, such as the order, and not less. */
  lemma CanonicalIff(s: Source, t: Source, collate: (string, string) -> bool)
    requires TotalOrder(collate) && DistinctNames(s) && DistinctNames(t)
    ensures Canonical(s, collate) == Canonical(t, collate) <==> ToMap(s) == ToMap(t)
  {
    hide Print, Sort, TotalPreorder, ToMap, Plain;
    var leq := ByName(collate);
    var a, b := Sort(s, leq), Sort(t, leq);
    EntriesArePlain(a);
    EntriesArePlain(b);
    if Print(EntriesValue(a)) == Print(EntriesValue(b)) {
      PrintInjective(EntriesValue(a), EntriesValue(b));
    }
    EntriesValueInjective(a, b);
    ByNameIsTotal(collate);
    NamesAntisymmetric(s, collate);
    SortIsCanonical(s, t, leq);
    SameElementsPermute(s, t);
    MapByElements(s, t);
  }

  lemma NamesAntisymmetric(s: Source, collate: (string, string) -> bool)
    requires TotalOrder(collate) && DistinctNames(s)
    ensures Antisymmetric(s, ByName(collate)) && Distinct(s)
  {
    forall i, j | 0 <= i < |s| && 0 <= j < |s| && collate(s[i].name, s[j].name) && collate(s[j].name, s[i].name)
      ensures s[i] == s[j]
    {
      assert s[i].name == s[j].name;
    }
  }
}
