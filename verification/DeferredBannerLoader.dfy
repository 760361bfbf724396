/**
 The shared-index worker pool of deferredBannerLoader.ts.

 Up to four workers take tasks from one list through a shared index, skip keys
 already taken, and await one response each. A settled response and the search
 for the next task run as one atomic segment. Responses settle in any order and
 each one succeeds with banners or fails.
 */
module DeferredBannerLoader {
  import opened Wrappers

  datatype Banner = Banner(source: string, id: string)

  datatype Collection = Collection(source: string, link: Option<string>)

  datatype Catalog = Catalog(entries: seq<Banner>, deferredBanners: seq<Collection>)

  const CONCURRENCY := 4

  predicate Loadable(c: Collection) {
    c.source != "" && c.link.Some? && c.link.value != ""
  }

  function Key(source: string, link: string): string {
    source + "|" + link
  }

  /** Keys of the loads, in collection order, repetitions kept. */
  function TaskKeys(collections: seq<Collection>): (keys: seq<string>)
    ensures |keys| <= |collections|
  {
    if collections == [] then [] else
      var c := collections[0];
      (if Loadable(c) then [Key(c.source, c.link.value)] else []) + TaskKeys(collections[1..])
  }

  // --- Transition system ---------------------------------------------------

  datatype Job = Job(keys: seq<string>, initial: seq<Banner>)

  /** The pool's work for a catalog; without any it returns the catalog as it is. */
  function JobOf(catalog: Catalog): Job {
    Job(TaskKeys(catalog.deferredBanners), catalog.entries)
  }

  lemma {:induction false} TaskKeysHold(collections: seq<Collection>, key: string)
    ensures key in TaskKeys(collections) <==>
              exists i :: 0 <= i < |collections| && Loadable(collections[i]) && Key(collections[i].source, collections[i].link.value) == key
  {
    if collections != [] {
      TaskKeysHold(collections[1..], key);
      assert forall i | 0 < i < |collections| :: collections[i] == collections[1..][i - 1];
    }
  }

  datatype Worker = Idle | Awaiting(index: nat) | Done

  /** How one started task settled. */
  datatype Outcome = Outcome(index: nat, banners: Option<seq<Banner>>)

  datatype State = State(
    nextIndex: nat,
    seenKeys: set<string>,
    loadedEntries: seq<Banner>,
    workers: seq<Worker>,
    published: seq<seq<Banner>>,
    outcomes: seq<Outcome>)

  function PoolSize(job: Job): nat {
    if |job.keys| < CONCURRENCY then |job.keys| else CONCURRENCY
  }

  function Initial(job: Job): State {
    State(0, {}, job.initial, seq(PoolSize(job), _ => Idle), [], [])
  }

  datatype Step = Launch(worker: nat) | Settle(worker: nat, banners: Option<seq<Banner>>)

  predicate Enabled(s: State, step: Step) {
    match step
    case Launch(w) => w < |s.workers| && s.workers[w].Idle?
    case Settle(w, _) => w < |s.workers| && s.workers[w].Awaiting?
  }

  /** First index from `next` on whose key was not seen, or the end of the list. */
  function Skip(keys: seq<string>, next: nat, seen: set<string>): (i: nat)
    requires next <= |keys|
    ensures next <= i <= |keys|
    ensures forall k | next <= k < i :: keys[k] in seen
    ensures i < |keys| ==> keys[i] !in seen
    decreases |keys| - next
  {
    if next < |keys| && keys[next] in seen then Skip(keys, next + 1, seen) else next
  }

  /** The worker loop up to its next await, or to its end. */
  function Take(job: Job, s: State, w: nat): State
    requires w < |s.workers| && s.nextIndex <= |job.keys|
  {
    var i := Skip(job.keys, s.nextIndex, s.seenKeys);
    if i < |job.keys| then
      s.(nextIndex := i + 1, seenKeys := s.seenKeys + {job.keys[i]}, workers := s.workers[w := Awaiting(i)])
    else
      s.(nextIndex := i, workers := s.workers[w := Done])
  }

  function Record(s: State, w: nat, banners: Option<seq<Banner>>): State
    requires w < |s.workers| && s.workers[w].Awaiting?
  {
    var done := s.(workers := s.workers[w := Idle],
                   outcomes := s.outcomes + [Outcome(s.workers[w].index, banners)]);
    match banners
    case None => done
    case Some(bs) =>
      done.(loadedEntries := s.loadedEntries + bs, published := s.published + [s.loadedEntries + bs])
  }

  function Apply(job: Job, s: State, step: Step): State
    requires Enabled(s, step) && s.nextIndex <= |job.keys|
  {
    match step
    case Launch(w) => Take(job, s, w)
    case Settle(w, banners) => Take(job, Record(s, w, banners), w)
  }

  ghost predicate Path(job: Job, s: State, steps: seq<Step>, t: State)
    decreases |steps|
  {
    if steps == [] then s == t
    else
      && Enabled(s, steps[0]) && s.nextIndex <= |job.keys|
      && Path(job, Apply(job, s, steps[0]), steps[1..], t)
  }

  // --- What the pool computes ----------------------------------------------

  /** Task `i` is the first one with its key. */
  ghost predicate FirstUse(keys: seq<string>, i: nat) {
    i < |keys| && keys[i] !in keys[..i]
  }

  /** Banners of the successful responses, in completion order. */
  ghost function Gathered(outcomes: seq<Outcome>): seq<Banner> {
    if outcomes == [] then [] else
      var last := outcomes[|outcomes| - 1];
      Gathered(outcomes[..|outcomes| - 1]) + last.banners.GetOr([])
  }

  /** One catalog per successful response, each holding all banners gathered so far. */
  ghost function Snapshots(initial: seq<Banner>, outcomes: seq<Outcome>): seq<seq<Banner>> {
    if outcomes == [] then [] else
      Snapshots(initial, outcomes[..|outcomes| - 1]) +
      (if outcomes[|outcomes| - 1].banners.Some? then [initial + Gathered(outcomes)] else [])
  }

  ghost predicate Settled(s: State, i: nat) {
    exists o | 0 <= o < |s.outcomes| :: s.outcomes[o].index == i
  }

  ghost predicate InFlight(s: State, i: nat) {
    Awaiting(i) in s.workers
  }

  ghost predicate Inv(job: Job, s: State) {
    && s.nextIndex <= |job.keys|
    && |s.workers| == PoolSize(job)
    && (forall k :: k in s.seenKeys <==> k in job.keys[..s.nextIndex])
    // a started task is the first use of its key, started once, and in flight or settled
    && (forall i: nat :: i < s.nextIndex && FirstUse(job.keys, i) <==> InFlight(s, i) || Settled(s, i))
    && (forall i: nat :: !(InFlight(s, i) && Settled(s, i)))
    && (forall v, w | 0 <= v < w < |s.workers| :: s.workers[v].Awaiting? ==> s.workers[v] != s.workers[w])
    && (forall o, p | 0 <= o < p < |s.outcomes| :: s.outcomes[o].index != s.outcomes[p].index)
    // a worker stops only when no task is left
    && (Done in s.workers ==> s.nextIndex == |job.keys|)
    && s.loadedEntries == job.initial + Gathered(s.outcomes)
    && s.published == Snapshots(job.initial, s.outcomes)
  }

  lemma InitialInv(job: Job)
    ensures Inv(job, Initial(job))
  {
  }

  /** Facts about the index chosen by the skip loop. */
  lemma SkipIsNextFirstUse(job: Job, s: State)
    requires Inv(job, s)
    ensures var i := Skip(job.keys, s.nextIndex, s.seenKeys);
            && (i < |job.keys| ==> FirstUse(job.keys, i))
            && (forall k: nat | s.nextIndex <= k < i :: !FirstUse(job.keys, k))
            && (forall k :: k in s.seenKeys <==> k in job.keys[..i])
  {
    var i := Skip(job.keys, s.nextIndex, s.seenKeys);
    forall k | s.nextIndex <= k < i ensures job.keys[k] in job.keys[..s.nextIndex] && !FirstUse(job.keys, k) {
      var j :| 0 <= j < s.nextIndex && job.keys[j] == job.keys[k];
      assert job.keys[..k][j] == job.keys[k];
    }
    forall x ensures x in s.seenKeys <==> x in job.keys[..i] {
      assert job.keys[..i] == job.keys[..s.nextIndex] + job.keys[s.nextIndex..i];
    }
  }

  /** Replacing what one worker does puts its new task in flight and takes the old one out. */
  lemma FlightChanges(s: State, t: State, w: nat)
    requires w < |s.workers| == |t.workers| && t.workers == s.workers[w := t.workers[w]]
    requires forall v | 0 <= v < |s.workers| && v != w :: s.workers[w].Awaiting? ==> s.workers[v] != s.workers[w]
    ensures forall j: nat :: InFlight(t, j) <==>
              (InFlight(s, j) && s.workers[w] != Awaiting(j)) || t.workers[w] == Awaiting(j)
  {
    forall j: nat ensures InFlight(t, j) <==>
      (InFlight(s, j) && s.workers[w] != Awaiting(j)) || t.workers[w] == Awaiting(j)
    {
      if InFlight(s, j) && s.workers[w] != Awaiting(j) {
        var v :| 0 <= v < |s.workers| && s.workers[v] == Awaiting(j);
        assert t.workers[v] == Awaiting(j);
      }
    }
  }

  lemma TakeKeepsInv(job: Job, s: State, w: nat)
    requires Inv(job, s) && w < |s.workers| && s.workers[w].Idle?
    ensures Inv(job, Take(job, s, w))
  {
    hide InFlight, Gathered, Snapshots, Skip;
    SkipIsNextFirstUse(job, s);
    var i := Skip(job.keys, s.nextIndex, s.seenKeys);
    var t := Take(job, s, w);
    FlightChanges(s, t, w);
    assert forall v | 0 <= v < |s.workers| && v != w :: t.workers[v] == s.workers[v];
    assert forall j: nat :: Settled(t, j) <==> Settled(s, j);
    if i < |job.keys| {
      assert job.keys[..i + 1] == job.keys[..i] + [job.keys[i]];
      assert !InFlight(s, i) && !Settled(s, i);
      FlownIsInFlight(s);
    }
  }

  lemma FlownIsInFlight(s: State)
    ensures forall v | 0 <= v < |s.workers| && s.workers[v].Awaiting? :: InFlight(s, s.workers[v].index)
  {
  }

  lemma RecordSettles(s: State, w: nat, banners: Option<seq<Banner>>)
    requires w < |s.workers| && s.workers[w].Awaiting?
    ensures forall j: nat :: Settled(Record(s, w, banners), j) <==> Settled(s, j) || j == s.workers[w].index
    ensures forall o | 0 <= o < |s.outcomes| :: Settled(s, s.outcomes[o].index)
  {
    var t := Record(s, w, banners);
    forall j: nat ensures Settled(t, j) <==> Settled(s, j) || j == s.workers[w].index {
      if Settled(s, j) {
        var o :| 0 <= o < |s.outcomes| && s.outcomes[o].index == j;
        assert t.outcomes[o].index == j;
      }
      assert t.outcomes[|s.outcomes|].index == s.workers[w].index;
    }
  }

  lemma RecordGathers(initial: seq<Banner>, s: State, w: nat, banners: Option<seq<Banner>>)
    requires w < |s.workers| && s.workers[w].Awaiting?
    requires s.loadedEntries == initial + Gathered(s.outcomes) && s.published == Snapshots(initial, s.outcomes)
    ensures var t := Record(s, w, banners);
            t.loadedEntries == initial + Gathered(t.outcomes) && t.published == Snapshots(initial, t.outcomes)
  {
    var t := Record(s, w, banners);
    assert t.outcomes[..|t.outcomes| - 1] == s.outcomes;
  }

  lemma RecordKeepsInv(job: Job, s: State, w: nat, banners: Option<seq<Banner>>)
    requires Inv(job, s) && w < |s.workers| && s.workers[w].Awaiting?
    ensures Inv(job, Record(s, w, banners))
  {
    hide InFlight, Settled, Gathered, Snapshots, FirstUse;
    var i := s.workers[w].index;
    var t := Record(s, w, banners);
    FlownIsInFlight(s);
    FlightChanges(s, t, w);
    RecordSettles(s, w, banners);
    RecordGathers(job.initial, s, w, banners);
    assert forall v | 0 <= v < |s.workers| && v != w :: t.workers[v] == s.workers[v];
  }

  lemma StepKeepsInv(job: Job, s: State, step: Step)
    requires Inv(job, s) && Enabled(s, step)
    ensures Inv(job, Apply(job, s, step))
  {
    match step
    case Launch(w) => TakeKeepsInv(job, s, w);
    case Settle(w, banners) =>
      RecordKeepsInv(job, s, w, banners);
      TakeKeepsInv(job, Record(s, w, banners), w);
  }

  lemma {:induction false} PathKeepsInv(job: Job, s: State, steps: seq<Step>, t: State)
    requires Inv(job, s) && Path(job, s, steps, t)
    ensures Inv(job, t)
    decreases |steps|
  {
    if steps != [] {
      StepKeepsInv(job, s, steps[0]);
      PathKeepsInv(job, Apply(job, s, steps[0]), steps[1..], t);
    }
  }

  // --- Main results --------------------------------------------------------

  ghost predicate AllDone(s: State) {
    forall w | 0 <= w < |s.workers| :: s.workers[w].Done?
  }

  /** Exactly one of the settled tasks has this key. */
  ghost predicate LoadedOnce(job: Job, t: State, key: string) {
    && (forall o | 0 <= o < |t.outcomes| :: t.outcomes[o].index < |job.keys|)
    && exists o | 0 <= o < |t.outcomes| ::
         && job.keys[t.outcomes[o].index] == key
         && forall p | 0 <= p < |t.outcomes| && p != o :: job.keys[t.outcomes[p].index] != key
  }

  lemma FirstUseOf(keys: seq<string>, key: string) returns (i: nat)
    requires key in keys
    ensures FirstUse(keys, i) && keys[i] == key
  {
    i := 0;
    while keys[i] != key
      invariant i < |keys| && key !in keys[..i]
      decreases |keys| - i
    {
      assert key in keys[i..] by {
        assert keys == keys[..i] + keys[i..];
      }
      assert keys[i..] == [keys[i]] + keys[i + 1..];
      assert keys[..i + 1] == keys[..i] + [keys[i]];
      i := i + 1;
    }
  }

  lemma FirstUseUnique(keys: seq<string>, i: nat, j: nat)
    requires FirstUse(keys, i) && FirstUse(keys, j) && keys[i] == keys[j]
    ensures i == j
  {
    assert forall k: nat | k < i :: keys[k] in keys[..i];
    assert forall k: nat | k < j :: keys[k] in keys[..j];
  }

  /**
   Whatever the scheduler and the backend do, the pool ends with every distinct
   key loaded exactly once and with the entries being the initial ones followed
   by all successful results in completion order.
   */
  lemma PoolLoadsEveryKeyOnce(job: Job, steps: seq<Step>, t: State)
    requires Path(job, Initial(job), steps, t) && AllDone(t)
    ensures forall key | key in job.keys :: LoadedOnce(job, t, key)
    ensures t.loadedEntries == job.initial + Gathered(t.outcomes)
  {
    PathKeepsInv(job, Initial(job), steps, t);
    forall o | 0 <= o < |t.outcomes| ensures FirstUse(job.keys, t.outcomes[o].index) {
      assert Settled(t, t.outcomes[o].index);
    }
    forall key | key in job.keys ensures LoadedOnce(job, t, key) {
      assert t.workers[0] in t.workers;
      var i := FirstUseOf(job.keys, key);
      assert !InFlight(t, i) && Settled(t, i);
      var o :| 0 <= o < |t.outcomes| && t.outcomes[o].index == i;
      forall p | 0 <= p < |t.outcomes| && p != o ensures job.keys[t.outcomes[p].index] != key {
        if job.keys[t.outcomes[p].index] == key {
          FirstUseUnique(job.keys, i, t.outcomes[p].index);
        }
      }
    }
  }

  /** Of a catalog, the pool loads exactly the collections with a source and a link, each key once, after the entries it had. */
  lemma CatalogIsLoaded(catalog: Catalog, steps: seq<Step>, t: State, key: string)
    requires Path(JobOf(catalog), Initial(JobOf(catalog)), steps, t) && AllDone(t)
    ensures LoadedOnce(JobOf(catalog), t, key) <==>
              exists i :: 0 <= i < |catalog.deferredBanners| && Loadable(catalog.deferredBanners[i]) &&
                Key(catalog.deferredBanners[i].source, catalog.deferredBanners[i].link.value) == key
    ensures t.loadedEntries == catalog.entries + Gathered(t.outcomes)
  {
    hide Path, Initial, TaskKeys, Gathered;
    PoolLoadsEveryKeyOnce(JobOf(catalog), steps, t);
    TaskKeysHold(catalog.deferredBanners, key);
    if LoadedOnce(JobOf(catalog), t, key) {
      var keys := JobOf(catalog).keys;
      var o :| 0 <= o < |t.outcomes| && keys[t.outcomes[o].index] == key;
      assert key in keys;
    }
  }

  /** Requests in flight, as the set of their task indices. */
  ghost function Flying(ws: seq<Worker>): set<nat> {
    set w | 0 <= w < |ws| && ws[w].Awaiting? :: ws[w].index
  }

  lemma {:induction false} FlyingBound(ws: seq<Worker>)
    ensures |Flying(ws)| <= |ws|
  {
    if ws != [] {
      var n := |ws| - 1;
      FlyingBound(ws[..n]);
      var last := if ws[n].Awaiting? then {ws[n].index} else {};
      assert Flying(ws) == Flying(ws[..n]) + last;
    }
  }

  /**
   At most min(4, n) requests are in flight, and while a launched worker has
   stopped no key is left: no slot idles while there is work.
   */
  lemma PoolConcurrency(job: Job, steps: seq<Step>, t: State)
    requires Path(job, Initial(job), steps, t)
    ensures |Flying(t.workers)| <= CONCURRENCY && |Flying(t.workers)| <= |job.keys|
    ensures Done in t.workers ==> forall i: nat | FirstUse(job.keys, i) :: InFlight(t, i) || Settled(t, i)
  {
    InitialInv(job);
    PathKeepsInv(job, Initial(job), steps, t);
    FlyingBound(t.workers);
  }

  ghost predicate GrowsTo(ps: seq<seq<Banner>>, initial: seq<Banner>, all: seq<Banner>) {
    && (forall a, b | 0 <= a <= b < |ps| :: ps[a] <= ps[b])
    && (forall a | 0 <= a < |ps| :: ps[a] <= all)
    && all == if ps == [] then initial else ps[|ps| - 1]
  }

  lemma GrowsByOne(ps: seq<seq<Banner>>, initial: seq<Banner>, all: seq<Banner>, more: seq<Banner>)
    requires GrowsTo(ps, initial, all) && all <= more
    ensures GrowsTo(ps + [more], initial, more)
  {
    forall a | 0 <= a < |ps| ensures ps[a] <= more {
      assert ps[a] <= all <= more;
    }
  }

  lemma GatheredMore(initial: seq<Banner>, outcomes: seq<Outcome>)
    requires outcomes != []
    ensures var before, last := outcomes[..|outcomes| - 1], outcomes[|outcomes| - 1].banners;
            && initial + Gathered(outcomes) == initial + Gathered(before) + last.GetOr([])
            && Snapshots(initial, outcomes)
               == Snapshots(initial, before) + if last.Some? then [initial + Gathered(outcomes)] else []
  {
  }

  lemma NothingPublished(initial: seq<Banner>)
    ensures GrowsTo(Snapshots(initial, []), initial, initial + Gathered([]))
  {
    assert initial + Gathered([]) == initial;
  }

  /** Each published catalog extends the ones before it; the last holds everything loaded. */
  lemma {:induction false} PublishedGrows(initial: seq<Banner>, outcomes: seq<Outcome>)
    ensures GrowsTo(Snapshots(initial, outcomes), initial, initial + Gathered(outcomes))
  {
    hide GrowsTo, Gathered, Snapshots;
    if outcomes == [] {
      NothingPublished(initial);
    } else {
      var before := outcomes[..|outcomes| - 1];
      var last := outcomes[|outcomes| - 1].banners;
      PublishedGrows(initial, before);
      GatheredMore(initial, outcomes);
      if last.Some? {
        GrowsByOne(Snapshots(initial, before), initial, initial + Gathered(before), initial + Gathered(outcomes));
      } else {
        assert last.GetOr([]) == [];
        assert Snapshots(initial, before) + [] == Snapshots(initial, before);
        assert initial + Gathered(before) + [] == initial + Gathered(before);
      }
    }
  }

  lemma PoolPublishesGrowingCatalogs(job: Job, steps: seq<Step>, t: State)
    requires Path(job, Initial(job), steps, t)
    ensures forall a, b | 0 <= a <= b < |t.published| :: t.published[a] <= t.published[b]
    ensures t.published != [] ==> t.published[|t.published| - 1] == t.loadedEntries
    ensures t.published == [] ==> t.loadedEntries == job.initial
  {
    InitialInv(job);
    PathKeepsInv(job, Initial(job), steps, t);
    PublishedGrows(job.initial, t.outcomes);
  }

  // --- Termination ---------------------------------------------------------

  ghost function Active(ws: seq<Worker>): nat {
    if ws == [] then 0 else (if ws[0].Done? then 0 else 1) + Active(ws[1..])
  }

  lemma {:induction false} ActiveUpdate(ws: seq<Worker>, w: nat, next: Worker)
    requires w < |ws| && !ws[w].Done?
    ensures Active(ws[w := next]) == Active(ws) - (if next.Done? then 1 else 0)
  {
    if w == 0 {
      assert ws[w := next][1..] == ws[1..];
    } else {
      assert ws[w := next][1..] == ws[1..][w - 1 := next];
      ActiveUpdate(ws[1..], w - 1, next);
    }
  }

  lemma {:induction false} ActiveBound(ws: seq<Worker>)
    ensures Active(ws) <= |ws|
  {
    if ws != [] {
      ActiveBound(ws[1..]);
    }
  }

  ghost function Work(job: Job, s: State): int {
    Active(s.workers) + |job.keys| - s.nextIndex
  }

  lemma {:induction false} PathConsumesWork(job: Job, s: State, steps: seq<Step>, t: State)
    requires Inv(job, s) && Path(job, s, steps, t)
    ensures |steps| + Work(job, t) <= Work(job, s)
    decreases |steps|
  {
    if steps != [] {
      var r := Apply(job, s, steps[0]);
      StepKeepsInv(job, s, steps[0]);
      PathConsumesWork(job, r, steps[1..], t);
      var w := steps[0].worker;
      ActiveUpdate(s.workers, w, r.workers[w]);
      assert r.workers == s.workers[w := r.workers[w]];
    }
  }

  /** Every schedule is over after at most n + min(4, n) segments. */
  lemma PoolTerminates(job: Job, steps: seq<Step>, t: State)
    requires Path(job, Initial(job), steps, t)
    ensures |steps| <= |job.keys| + PoolSize(job)
  {
    InitialInv(job);
    PathConsumesWork(job, Initial(job), steps, t);
    PathKeepsInv(job, Initial(job), steps, t);
    ActiveBound(Initial(job).workers);
  }

  // --- Keys ----------------------------------------------------------------

  /**
   Joining source and link with a bar can make two sources share keys: they do
   exactly when one of them, followed by a bar, begins the other.
   */
  lemma KeysMeetIff(s1: string, s2: string)
    requires s1 != s2
    ensures (exists l1, l2 :: l1 != "" && l2 != "" && Key(s1, l1) == Key(s2, l2))
            <==> (s1 + "|" <= s2 || s2 + "|" <= s1)
  {
    if s1 + "|" <= s2 {
      var rest := s2[|s1| + 1..] + "|x";
      assert Key(s1, rest) == Key(s2, "x");
    }
    if s2 + "|" <= s1 {
      var rest := s1[|s2| + 1..] + "|x";
      assert Key(s1, "x") == Key(s2, rest);
    }
    forall l1, l2 | Key(s1, l1) == Key(s2, l2) ensures s1 + "|" <= s2 || s2 + "|" <= s1 {
      var k := Key(s1, l1);
      assert s1 == k[..|s1|] && k[|s1|] == '|';
      assert s2 == k[..|s2|] && k[|s2|] == '|';
      if |s1| < |s2| {
        assert s2[..|s1| + 1] == s1 + "|";
      } else {
        assert |s2| < |s1| by {
          assert |s1| == |s2| ==> s1 == s2;
        }
        assert s1[..|s2| + 1] == s2 + "|";
      }
    }
  }

  // --- The pool ------------------------------------------------------------

  class BannerPool {
    const job: Job
    var nextIndex: nat
    var seenKeys: set<string>
    var loadedEntries: seq<Banner>
    var published: seq<seq<Banner>>
    var workers: seq<Worker>
    ghost var outcomes: seq<Outcome>

    ghost function View(): State
      reads this
    {
      State(nextIndex, seenKeys, loadedEntries, workers, published, outcomes)
    }

    constructor (keys: seq<string>, initial: seq<Banner>)
      ensures job == Job(keys, initial) && View() == Initial(job) && Inv(job, View())
    {
      job := Job(keys, initial);
      nextIndex, seenKeys, loadedEntries, published := 0, {}, initial, [];
      workers := seq(PoolSize(Job(keys, initial)), _ => Idle);
      outcomes := [];
    }

    /** The worker loop from the top to its next await or to its end. */
    method RunWorker(w: nat)
      requires nextIndex <= |job.keys| && w < |workers|
      modifies `nextIndex, `seenKeys, `workers
      ensures View() == Take(job, old(View()), w)
    {
      ghost var before := View();
      while nextIndex < |job.keys|
        invariant nextIndex <= |job.keys|
        invariant View() == before.(nextIndex := nextIndex)
        invariant Skip(job.keys, nextIndex, seenKeys) == Skip(job.keys, before.nextIndex, seenKeys)
      {
        var taken := nextIndex;
        nextIndex := nextIndex + 1;
        if job.keys[taken] in seenKeys {
          continue;
        }
        seenKeys := seenKeys + {job.keys[taken]};
        workers := workers[w := Awaiting(taken)];
        return;
      }
      workers := workers[w := Done];
    }

    /** Starts every worker in turn; each one runs up to its first await. */
    method Start()
      requires View() == Initial(job)
      modifies this
      ensures Inv(job, View()) && Idle !in workers
    {
      for w := 0 to |workers|
        invariant Inv(job, View())
        invariant forall v | 0 <= v < w :: !workers[v].Idle?
        invariant forall v | w <= v < |workers| :: workers[v].Idle?
      {
        TakeKeepsInv(job, View(), w);
        RunWorker(w);
      }
    }

    /** The segment of a worker whose response settled. */
    method SettleWorker(w: nat, banners: Option<seq<Banner>>)
      requires Inv(job, View()) && Enabled(View(), Settle(w, banners))
      modifies this
      ensures View() == Apply(job, old(View()), Settle(w, banners)) && Inv(job, View())
    {
      StepKeepsInv(job, View(), Settle(w, banners));
      if banners.Some? {
        loadedEntries := loadedEntries + banners.value;
        published := published + [loadedEntries];
      }
      outcomes := outcomes + [Outcome(workers[w].index, banners)];
      workers := workers[w := Idle];
      RunWorker(w);
    }
  }
}
