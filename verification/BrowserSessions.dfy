/**
 The manager of reusable browser sessions (browser.rs).

 A caller of `get_or_create` looks the key up under the read lock, and only if
 that fails takes the write lock and looks again; other callers may run between
 the two. Handles are indices into a table, so that clones are equal indices.
 */
module BrowserSessions {
  import opened Wrappers

  datatype Key = Key(origin: string, profile: string, proxyRoute: Option<string>)

  datatype Handle = Handle(valid: bool, lastUsed: int, token: Option<string>)

  datatype Config = Config(maxSessions: nat, idleTimeout: int)

  /** The session map and every handle ever created. */
  datatype Manager = Manager(sessions: map<Key, nat>, handles: seq<Handle>)

  ghost predicate WellFormed(m: Manager) {
    && (forall k | k in m.sessions :: m.sessions[k] < |m.handles|)
    && (forall k, l | k in m.sessions && l in m.sessions && m.sessions[k] == m.sessions[l] :: k == l)
  }

  // --- Operations on the map -----------------------------------------------

  predicate IsIdle(c: Config, h: Handle, now: int) {
    now - h.lastUsed >= c.idleTimeout
  }

  predicate IsStale(c: Config, m: Manager, k: Key, now: int) {
    k in m.sessions && m.sessions[k] < |m.handles| &&
    (!m.handles[m.sessions[k]].valid || IsIdle(c, m.handles[m.sessions[k]], now))
  }

  function Stale(c: Config, m: Manager, now: int): set<Key> {
    set k | k in m.sessions && IsStale(c, m, k, now)
  }

  function HandlesOf(m: Manager, keys: set<Key>): set<nat> {
    set k | k in keys && k in m.sessions :: m.sessions[k]
  }

  function Invalidated(h: Handle): Handle {
    h.(valid := false)
  }

  function Touched(h: Handle, now: int): Handle {
    h.(lastUsed := now)
  }

  /** The handles after those in `hs` were invalidated. */
  function InvalidateAll(handles: seq<Handle>, hs: set<nat>): (r: seq<Handle>)
    ensures |r| == |handles| && forall h | 0 <= h < |r| :: r[h] == if h in hs then Invalidated(handles[h]) else handles[h]
  {
    seq(|handles|, h requires 0 <= h < |handles| => if h in hs then Invalidated(handles[h]) else handles[h])
  }

  function Without(m: Manager, keys: set<Key>, invalidate: bool): Manager {
    Manager(m.sessions - keys, if invalidate then InvalidateAll(m.handles, HandlesOf(m, keys)) else m.handles)
  }

  /** Some tracked session with the earliest use; the hash map decides among equals. */
  predicate IsOldest(m: Manager, k: Key) {
    && k in m.sessions && m.sessions[k] < |m.handles|
    && forall l | l in m.sessions && m.sessions[l] < |m.handles| ::
         m.handles[m.sessions[k]].lastUsed <= m.handles[m.sessions[l]].lastUsed
  }

  /** The first stage of the eviction: at capacity, everything idle or invalid. */
  function FirstStage(c: Config, m: Manager, now: int): set<Key> {
    if |m.sessions| >= c.maxSessions then Stale(c, m, now) else {}
  }

  /** The second stage: if still at capacity, the oldest session. */
  function SecondStage(c: Config, m: Manager, oldest: Option<Key>): set<Key> {
    if |m.sessions| >= c.maxSessions && oldest.Some? then {oldest.value} else {}
  }

  predicate IsChoice(m: Manager, oldest: Option<Key>) {
    if oldest.Some? then IsOldest(m, oldest.value) else m.sessions == map[]
  }

  /** The second stage, if it runs, picks the oldest of what the first stage left, if anything is left. */
  predicate IsVictim(c: Config, m: Manager, oldest: Option<Key>) {
    if |m.sessions| >= c.maxSessions then IsChoice(m, oldest) else oldest.None?
  }

  function Evicted(c: Config, m: Manager, now: int, oldest: Option<Key>): set<Key> {
    var stale := FirstStage(c, m, now);
    stale + SecondStage(c, Without(m, stale, false), oldest)
  }

  function WithNew(m: Manager, key: Key, now: int): Manager {
    Manager(m.sessions[key := |m.handles|], m.handles + [Handle(true, now, None)])
  }

  // --- Callers -------------------------------------------------------------

  /**
   `waiting` are callers between the two locks, `returned` what callers ever got,
   `handed` the handles given to `close_evicted`, `closed` those whose close ran.
   */
  datatype State = State(
    manager: Manager,
    handed: multiset<nat>,
    closed: set<nat>,
    waiting: map<nat, Key>,
    returned: set<(Key, nat)>)

  datatype Step =
    | Lookup(caller: nat, key: Key, now: int)
    | Create(caller: nat, now: int, oldest: Option<Key>)
    | InvalidateOrigin(origin: string)
    | InvalidateEverything
    | EvictIdle(now: int)
    | Close(handle: nat)
    | Touch(handle: nat, now: int)
    | CacheToken(handle: nat, token: Option<string>)

  function OfOrigin(m: Manager, origin: string): set<Key> {
    set k | k in m.sessions && k.origin == origin
  }

  predicate Enabled(c: Config, s: State, step: Step) {
    match step
    case Lookup(caller, _, _) => caller !in s.waiting
    case Create(caller, now, oldest) =>
      caller in s.waiting && IsVictim(c, Without(s.manager, FirstStage(c, s.manager, now), false), oldest)
    case Close(h) => h in s.handed && h !in s.closed && h < |s.manager.handles|
    case Touch(h, _) => h < |s.manager.handles|
    case CacheToken(h, _) => h < |s.manager.handles|
    case _ => true
  }

  function SetHandle(m: Manager, h: nat, handle: Handle): Manager
    requires h < |m.handles|
  {
    m.(handles := m.handles[h := handle])
  }

  /** Returns the session of `key`, which is tracked. */
  function Hit(s: State, key: Key, now: int): State
    requires key in s.manager.sessions && s.manager.sessions[key] < |s.manager.handles|
  {
    var h := s.manager.sessions[key];
    s.(manager := SetHandle(s.manager, h, Touched(s.manager.handles[h], now)), returned := s.returned + {(key, h)})
  }

  /** Removes sessions and hands them to be closed. */
  function Remove(s: State, keys: set<Key>, invalidate: bool): State {
    s.(manager := Without(s.manager, keys, invalidate), handed := s.handed + multiset(HandlesOf(s.manager, keys)))
  }

  /** Inserts and returns a new session. */
  function Insert(s: State, key: Key, now: int): State {
    s.(manager := WithNew(s.manager, key, now), returned := s.returned + {(key, |s.manager.handles|)})
  }

  function Apply(c: Config, s: State, step: Step): State
    requires WellFormed(s.manager) && Enabled(c, s, step)
  {
    match step
    case Lookup(caller, key, now) =>
      if key in s.manager.sessions then Hit(s, key, now) else s.(waiting := s.waiting[caller := key])
    case Create(caller, now, oldest) =>
      var key, t := s.waiting[caller], s.(waiting := s.waiting - {caller});
      if key in s.manager.sessions then Hit(t, key, now)
      else Insert(Remove(t, Evicted(c, s.manager, now, oldest), false), key, now)
    case InvalidateOrigin(origin) => Remove(s, OfOrigin(s.manager, origin), true)
    case InvalidateEverything => Remove(s, s.manager.sessions.Keys, true)
    case EvictIdle(now) => Remove(s, Stale(c, s.manager, now), true)
    case Close(h) =>
      s.(manager := SetHandle(s.manager, h, s.manager.handles[h].(valid := false, token := None)),
         closed := s.closed + {h})
    case Touch(h, now) => s.(manager := SetHandle(s.manager, h, Touched(s.manager.handles[h], now)))
    case CacheToken(h, token) => s.(manager := SetHandle(s.manager, h, s.manager.handles[h].(token := token)))
  }

  // --- Invariant -----------------------------------------------------------

  function Bound(c: Config): nat {
    if c.maxSessions == 0 then 1 else c.maxSessions
  }

  predicate Tracks(m: Manager, k: Key, h: nat) {
    k in m.sessions && m.sessions[k] == h
  }

  ghost predicate Tracked(m: Manager, h: nat) {
    exists k | k in m.sessions :: Tracks(m, k, h)
  }

  /** Every created handle is either tracked or was handed to be closed, once. */
  ghost predicate Conserved(s: State) {
    && (forall h | h in s.handed :: h < |s.manager.handles|)
    && (forall h | 0 <= h < |s.manager.handles| :: s.handed[h] == if Tracked(s.manager, h) then 0 else 1)
  }

  /** What a caller was given is what the key still leads to, unless it was handed to be closed. */
  ghost predicate Agreed(s: State) {
    forall r | r in s.returned :: Tracks(s.manager, r.0, r.1) || r.1 in s.handed
  }

  ghost predicate Validity(s: State) {
    && (forall k | k in s.manager.sessions :: s.manager.sessions[k] < |s.manager.handles| && s.manager.handles[s.manager.sessions[k]].valid)
    && (forall h | h in s.closed :: h in s.handed && h < |s.manager.handles| && !s.manager.handles[h].valid)
  }

  ghost predicate Inv(c: Config, s: State) {
    && WellFormed(s.manager) && |s.manager.sessions| <= Bound(c)
    && Conserved(s) && Agreed(s) && Validity(s)
  }

  // --- Removing ------------------------------------------------------------

  lemma RemoveKeepsWellFormed(m: Manager, keys: set<Key>, invalidate: bool)
    requires WellFormed(m)
    ensures WellFormed(Without(m, keys, invalidate))
  {
  }

  lemma RemoveTracked(m: Manager, keys: set<Key>, invalidate: bool, h: nat)
    requires WellFormed(m)
    ensures Tracked(Without(m, keys, invalidate), h) <==> Tracked(m, h) && h !in HandlesOf(m, keys)
  {
    var t := Without(m, keys, invalidate);
    if Tracked(t, h) {
      var k :| k in t.sessions && Tracks(t, k, h);
      assert Tracks(m, k, h);
    }
    if Tracked(m, h) && h !in HandlesOf(m, keys) {
      var k :| k in m.sessions && Tracks(m, k, h);
      assert Tracks(t, k, h);
    }
  }

  lemma HandlesTracked(m: Manager, keys: set<Key>, h: nat)
    requires h in HandlesOf(m, keys)
    ensures Tracked(m, h)
  {
    var k :| k in keys && k in m.sessions && m.sessions[k] == h;
    assert Tracks(m, k, h);
  }

  lemma RemoveConserves(s: State, keys: set<Key>, invalidate: bool)
    requires WellFormed(s.manager) && Conserved(s)
    ensures Conserved(Remove(s, keys, invalidate))
  {
    var t, removed := Remove(s, keys, invalidate), HandlesOf(s.manager, keys);
    forall h | 0 <= h < |s.manager.handles| ensures t.handed[h] == if Tracked(t.manager, h) then 0 else 1 {
      RemoveTracked(s.manager, keys, invalidate, h);
      if h in removed {
        HandlesTracked(s.manager, keys, h);
      }
    }
  }

  lemma RemoveAgrees(s: State, keys: set<Key>, invalidate: bool)
    requires WellFormed(s.manager) && Agreed(s)
    ensures Agreed(Remove(s, keys, invalidate))
  {
    var t := Remove(s, keys, invalidate);
    forall r | r in t.returned ensures Tracks(t.manager, r.0, r.1) || r.1 in t.handed {
      if Tracks(s.manager, r.0, r.1) && r.0 in keys {
        assert r.1 in HandlesOf(s.manager, keys);
      }
    }
  }

  lemma RemoveKeepsValidity(s: State, keys: set<Key>, invalidate: bool)
    requires WellFormed(s.manager) && Validity(s)
    ensures Validity(Remove(s, keys, invalidate))
  {
    var t := Remove(s, keys, invalidate);
    forall k | k in t.manager.sessions
      ensures t.manager.sessions[k] < |t.manager.handles| && t.manager.handles[t.manager.sessions[k]].valid
    {
      var h := s.manager.sessions[k];
      assert h !in HandlesOf(s.manager, keys);
    }
  }

  lemma FewerSessions(m: Manager, keys: set<Key>)
    ensures |m.sessions - keys| <= |m.sessions|
    ensures |m.sessions - keys| == |m.sessions| - |m.sessions.Keys * keys|
  {
    var t := m.sessions - keys;
    assert t.Keys == m.sessions.Keys - keys;
    assert |t.Keys| == |t| && |m.sessions.Keys| == |m.sessions|;
    assert |m.sessions.Keys - keys| + |m.sessions.Keys * keys| == |m.sessions.Keys|;
  }

  lemma RemoveKeeps(c: Config, s: State, keys: set<Key>, invalidate: bool)
    requires Inv(c, s)
    ensures Inv(c, Remove(s, keys, invalidate))
  {
    hide WellFormed, Conserved, Agreed, Validity;
    RemoveKeepsWellFormed(s.manager, keys, invalidate);
    FewerSessions(s.manager, keys);
    RemoveConserves(s, keys, invalidate);
    RemoveAgrees(s, keys, invalidate);
    RemoveKeepsValidity(s, keys, invalidate);
  }

  // --- Eviction ------------------------------------------------------------

  lemma NothingStale(c: Config, m: Manager, now: int, oldest: Option<Key>)
    requires |m.sessions| >= c.maxSessions && Stale(c, m, now) == {}
    requires IsVictim(c, Without(m, FirstStage(c, m, now), false), oldest)
    ensures if m.sessions == map[] then Evicted(c, m, now, oldest) == {}
            else oldest.Some? && Evicted(c, m, now, oldest) == {oldest.value} && IsOldest(m, oldest.value)
  {
    hide Stale;
    OldestIsTracked(m, oldest);
    hide IsOldest;
    var none := FirstStage(c, m, now);
    assert none == {} && m.sessions - none == m.sessions;
    assert Without(m, none, false) == m;
    if m.sessions != map[] {
      assert none + {oldest.value} == {oldest.value};
    }
  }

  lemma SomethingStale(c: Config, m: Manager, now: int, oldest: Option<Key>)
    requires |m.sessions| <= Bound(c) && |m.sessions| >= c.maxSessions && Stale(c, m, now) != {}
    requires IsVictim(c, Without(m, FirstStage(c, m, now), false), oldest)
    ensures Evicted(c, m, now, oldest) == Stale(c, m, now)
  {
    hide Stale, IsOldest;
    StaleMakesRoom(c, m, now);
    OldestIsTracked(Without(m, Stale(c, m, now), false), oldest);
  }

  lemma OldestIsTracked(m: Manager, oldest: Option<Key>)
    ensures IsChoice(m, oldest) ==> (oldest.Some? <==> m.sessions != map[])
  {
  }

  /**
   Which sessions give way to a new one: none below capacity; at capacity all the
   stale ones; and if there are none, exactly one, the one used longest ago. So a
   valid session in use is evicted only when no tracked session is stale.
   */
  lemma EvictionIsMinimal(c: Config, m: Manager, now: int, oldest: Option<Key>)
    requires |m.sessions| <= Bound(c)
    requires IsVictim(c, Without(m, FirstStage(c, m, now), false), oldest)
    ensures var evicted, stale := Evicted(c, m, now, oldest), Stale(c, m, now);
            if |m.sessions| < c.maxSessions then evicted == {}
            else if stale != {} then evicted == stale
            else if m.sessions == map[] then evicted == {}
            else oldest.Some? && evicted == {oldest.value} && IsOldest(m, oldest.value)
  {
    hide Stale, IsOldest, IsVictim;
    if |m.sessions| < c.maxSessions {
      assert m.sessions - {} == m.sessions;
    } else if Stale(c, m, now) == {} {
      NothingStale(c, m, now, oldest);
    } else {
      SomethingStale(c, m, now, oldest);
    }
  }

  /** If anything was stale, the first stage alone makes room; with a limit of zero it empties the map. */
  lemma StaleMakesRoom(c: Config, m: Manager, now: int)
    requires |m.sessions| <= Bound(c) && Stale(c, m, now) != {}
    ensures var left := m.sessions - Stale(c, m, now);
            |left| < |m.sessions| && (|left| < c.maxSessions || left == map[])
  {
    hide IsStale;
    var stale := Stale(c, m, now);
    FewerSessions(m, stale);
    assert m.sessions.Keys * stale == stale;
    assert |stale| >= 1;
  }

  /** After the eviction there is room for one more. */
  lemma EvictionMakesRoom(c: Config, m: Manager, now: int, oldest: Option<Key>)
    requires WellFormed(m) && |m.sessions| <= Bound(c)
    requires IsVictim(c, Without(m, FirstStage(c, m, now), false), oldest)
    ensures |m.sessions - Evicted(c, m, now, oldest)| < Bound(c)
  {
    hide Evicted, IsVictim;
    EvictionIsMinimal(c, m, now, oldest);
    hide FirstStage;
    var evicted := Evicted(c, m, now, oldest);
    EvictedTracked(c, m, now, oldest);
    FewerSessions(m, evicted);
    assert m.sessions.Keys * evicted == evicted;
    if evicted != {} {
      assert |evicted| >= 1;
    }
  }

  lemma EvictedTracked(c: Config, m: Manager, now: int, oldest: Option<Key>)
    requires IsVictim(c, Without(m, FirstStage(c, m, now), false), oldest)
    ensures Evicted(c, m, now, oldest) <= m.sessions.Keys
  {
    hide IsStale;
  }

  // --- Steps ---------------------------------------------------------------

  lemma SetHandleTracked(m: Manager, h: nat, handle: Handle, g: nat)
    requires h < |m.handles|
    ensures Tracked(SetHandle(m, h, handle), g) <==> Tracked(m, g)
  {
    var t := SetHandle(m, h, handle);
    if Tracked(t, g) {
      var k :| k in t.sessions && Tracks(t, k, g);
      assert Tracks(m, k, g);
    }
    if Tracked(m, g) {
      var k :| k in m.sessions && Tracks(m, k, g);
      assert Tracks(t, k, g);
    }
  }

  /** Changing a handle, unless it invalidates a tracked one, keeps the invariant. */
  lemma SetHandleKeeps(c: Config, s: State, h: nat, handle: Handle, closed: set<nat>)
    requires Inv(c, s) && h < |s.manager.handles|
    requires handle.valid == s.manager.handles[h].valid || (!handle.valid && h in s.handed)
    requires closed == s.closed || (closed == s.closed + {h} && !handle.valid && h in s.handed)
    ensures Inv(c, s.(manager := SetHandle(s.manager, h, handle), closed := closed))
  {
    var t := s.(manager := SetHandle(s.manager, h, handle), closed := closed);
    forall g | 0 <= g < |s.manager.handles| ensures Tracked(t.manager, g) <==> Tracked(s.manager, g) {
      SetHandleTracked(s.manager, h, handle, g);
    }
    SetHandleValidity(s, h, handle, closed);
  }

  lemma SetHandleValidity(s: State, h: nat, handle: Handle, closed: set<nat>)
    requires WellFormed(s.manager) && Conserved(s) && Validity(s) && h < |s.manager.handles|
    requires handle.valid == s.manager.handles[h].valid || (!handle.valid && h in s.handed)
    requires closed == s.closed || (closed == s.closed + {h} && !handle.valid && h in s.handed)
    ensures Validity(s.(manager := SetHandle(s.manager, h, handle), closed := closed))
  {
    forall k | k in s.manager.sessions && s.manager.sessions[k] == h ensures h !in s.handed {
      assert Tracks(s.manager, k, h);
      assert Tracked(s.manager, h);
    }
  }

  lemma HitKeeps(c: Config, s: State, key: Key, now: int)
    requires Inv(c, s) && key in s.manager.sessions
    ensures Inv(c, Hit(s, key, now))
  {
    var h := s.manager.sessions[key];
    SetHandleKeeps(c, s, h, Touched(s.manager.handles[h], now), s.closed);
  }

  lemma InsertTracked(m: Manager, key: Key, now: int, h: nat)
    requires WellFormed(m) && key !in m.sessions
    ensures Tracked(WithNew(m, key, now), h) <==> Tracked(m, h) || h == |m.handles|
  {
    var t := WithNew(m, key, now);
    if Tracked(t, h) {
      var k :| k in t.sessions && Tracks(t, k, h);
      assert k != key ==> Tracks(m, k, h);
    }
    if Tracked(m, h) {
      var k :| k in m.sessions && Tracks(m, k, h);
      assert Tracks(t, k, h);
    }
    assert Tracks(t, key, |m.handles|);
  }

  lemma InsertConserves(s: State, key: Key, now: int)
    requires WellFormed(s.manager) && Conserved(s) && key !in s.manager.sessions
    ensures Conserved(Insert(s, key, now))
  {
    var t := Insert(s, key, now);
    forall h | 0 <= h < |t.manager.handles| ensures t.handed[h] == if Tracked(t.manager, h) then 0 else 1 {
      InsertTracked(s.manager, key, now, h);
    }
  }

  lemma InsertKeeps(c: Config, s: State, key: Key, now: int)
    requires Inv(c, s) && key !in s.manager.sessions && |s.manager.sessions| < Bound(c)
    ensures Inv(c, Insert(s, key, now))
  {
    hide Conserved, Agreed, Validity, WellFormed;
    InsertConserves(s, key, now);
    InsertKeepsRest(s, key, now);
    InsertAgrees(s, key, now);
    assert |s.manager.sessions[key := |s.manager.handles|]| == |s.manager.sessions| + 1;
  }

  lemma InsertKeepsRest(s: State, key: Key, now: int)
    requires WellFormed(s.manager) && Validity(s) && key !in s.manager.sessions
    ensures WellFormed(Insert(s, key, now).manager) && Validity(Insert(s, key, now))
  {
  }

  lemma InsertAgrees(s: State, key: Key, now: int)
    requires WellFormed(s.manager) && Agreed(s) && key !in s.manager.sessions
    ensures Agreed(Insert(s, key, now))
  {
    var t := Insert(s, key, now);
    forall r | r in t.returned ensures Tracks(t.manager, r.0, r.1) || r.1 in t.handed {
      assert r in s.returned || r == (key, |s.manager.handles|);
    }
  }

  /** A caller on its way between the locks is not part of the invariant. */
  lemma WaitingKeeps(c: Config, s: State, waiting: map<nat, Key>)
    requires Inv(c, s)
    ensures Inv(c, s.(waiting := waiting))
  {
  }

  lemma CreateKeeps(c: Config, s: State, caller: nat, now: int, oldest: Option<Key>)
    requires Inv(c, s) && Enabled(c, s, Create(caller, now, oldest))
    ensures Inv(c, Apply(c, s, Create(caller, now, oldest)))
  {
    hide Conserved, Agreed, Validity;
    var key, t := s.waiting[caller], s.(waiting := s.waiting - {caller});
    WaitingKeeps(c, s, t.waiting);
    if key in s.manager.sessions {
      HitKeeps(c, t, key, now);
    } else {
      var evicted := Evicted(c, s.manager, now, oldest);
      RemoveKeeps(c, t, evicted, false);
      EvictionMakesRoom(c, s.manager, now, oldest);
      InsertKeeps(c, Remove(t, evicted, false), key, now);
    }
  }

  lemma LookupKeeps(c: Config, s: State, caller: nat, key: Key, now: int)
    requires Inv(c, s) && Enabled(c, s, Lookup(caller, key, now))
    ensures Inv(c, Apply(c, s, Lookup(caller, key, now)))
  {
    hide Conserved, Agreed, Validity;
    if key in s.manager.sessions {
      HitKeeps(c, s, key, now);
    } else {
      WaitingKeeps(c, s, s.waiting[caller := key]);
    }
  }

  lemma RemovalKeeps(c: Config, s: State, step: Step)
    requires Inv(c, s) && Enabled(c, s, step)
    requires step.InvalidateOrigin? || step.InvalidateEverything? || step.EvictIdle?
    ensures Inv(c, Apply(c, s, step))
  {
    hide Conserved, Agreed, Validity;
    match step {
      case InvalidateOrigin(origin) => RemoveKeeps(c, s, OfOrigin(s.manager, origin), true);
      case InvalidateEverything => RemoveKeeps(c, s, s.manager.sessions.Keys, true);
      case EvictIdle(now) => RemoveKeeps(c, s, Stale(c, s.manager, now), true);
    }
  }

  lemma HandleStepKeeps(c: Config, s: State, step: Step)
    requires Inv(c, s) && Enabled(c, s, step) && (step.Close? || step.Touch? || step.CacheToken?)
    ensures Inv(c, Apply(c, s, step))
  {
    hide Conserved, Agreed, Validity;
    match step {
      case Close(h) =>
        SetHandleKeeps(c, s, h, s.manager.handles[h].(valid := false, token := None), s.closed + {h});
      case Touch(h, now) => SetHandleKeeps(c, s, h, Touched(s.manager.handles[h], now), s.closed);
      case CacheToken(h, token) => SetHandleKeeps(c, s, h, s.manager.handles[h].(token := token), s.closed);
    }
  }

  lemma StepKeeps(c: Config, s: State, step: Step)
    requires Inv(c, s) && Enabled(c, s, step)
    ensures Inv(c, Apply(c, s, step))
  {
    hide Inv, Enabled;
    match step {
      case Lookup(caller, key, now) => LookupKeeps(c, s, caller, key, now);
      case Create(caller, now, oldest) => CreateKeeps(c, s, caller, now, oldest);
      case InvalidateOrigin(_) => RemovalKeeps(c, s, step);
      case InvalidateEverything => RemovalKeeps(c, s, step);
      case EvictIdle(_) => RemovalKeeps(c, s, step);
      case Close(_) => HandleStepKeeps(c, s, step);
      case Touch(_, _) => HandleStepKeeps(c, s, step);
      case CacheToken(_, _) => HandleStepKeeps(c, s, step);
    }
  }

  // --- Runs ----------------------------------------------------------------

  ghost predicate Run(c: Config, s: State, steps: seq<Step>, t: State)
    decreases |steps|
  {
    if steps == [] then s == t
    else WellFormed(s.manager) && Enabled(c, s, steps[0]) && Run(c, Apply(c, s, steps[0]), steps[1..], t)
  }

  const INITIAL := State(Manager(map[], []), multiset{}, {}, map[], {})

  lemma {:induction false} RunKeeps(c: Config, s: State, steps: seq<Step>, t: State)
    requires Inv(c, s) && Run(c, s, steps, t)
    ensures Inv(c, t)
    decreases |steps|
  {
    hide Conserved, Agreed, Validity, Apply, Enabled;
    if steps != [] {
      StepKeeps(c, s, steps[0]);
      RunKeeps(c, Apply(c, s, steps[0]), steps[1..], t);
    }
  }

  /**
   On every schedule: the map stays within its bound, tracked sessions are valid,
   and every handle ever created is tracked or was handed to be closed, exactly once.
   */
  lemma SessionsAreConserved(c: Config, steps: seq<Step>, t: State)
    requires Run(c, INITIAL, steps, t)
    ensures |t.manager.sessions| <= Bound(c)
    ensures forall k | k in t.manager.sessions ::
              t.manager.sessions[k] < |t.manager.handles| && t.manager.handles[t.manager.sessions[k]].valid
    ensures forall h | 0 <= h < |t.manager.handles| :: t.handed[h] == if Tracked(t.manager, h) then 0 else 1
  {
    RunKeeps(c, INITIAL, steps, t);
  }

  /**
   Racing callers share: whenever two calls for one key were given different
   handles, at least one of the two has been handed to be closed.
   */
  lemma CallersShare(c: Config, steps: seq<Step>, t: State, key: Key, g: nat, h: nat)
    requires Run(c, INITIAL, steps, t)
    requires (key, g) in t.returned && (key, h) in t.returned && g != h
    ensures g in t.handed || h in t.handed
  {
    RunKeeps(c, INITIAL, steps, t);
  }

  lemma {:induction false} HistoriesGrow(c: Config, s: State, steps: seq<Step>, t: State)
    requires Run(c, s, steps, t)
    ensures s.returned <= t.returned
    decreases |steps|
  {
    if steps != [] {
      HistoriesGrow(c, Apply(c, s, steps[0]), steps[1..], t);
    }
  }

  /**
   The second look: once some caller was given a handle for a key, every caller
   that comes to the write lock for that key while the handle was not handed to be
   closed gets the same handle, whatever ran in between, and evicts nothing.
   */
  lemma LoserGetsWinnersHandle(c: Config, s: State, steps: seq<Step>, t: State, caller: nat, now: int, oldest: Option<Key>, h: nat)
    requires Inv(c, s) && Run(c, s, steps, t) && Enabled(c, t, Create(caller, now, oldest))
    requires (t.waiting[caller], h) in s.returned && h !in t.handed
    ensures WellFormed(t.manager)
    ensures var u, key := Apply(c, t, Create(caller, now, oldest)), t.waiting[caller];
            && (key, h) in u.returned && u.returned == t.returned + {(key, h)}
            && u.manager.sessions == t.manager.sessions && u.handed == t.handed
            && |u.manager.handles| == |t.manager.handles|
  {
    hide Conserved, Validity, Run, Evicted, IsVictim;
    RunKeeps(c, s, steps, t);
    HistoriesGrow(c, s, steps, t);
    assert Tracks(t.manager, t.waiting[caller], h);
  }

  // --- The manager ---------------------------------------------------------

  lemma OneMore(m: Manager, done: set<Key>, k: Key)
    requires WellFormed(m) && k in m.sessions && k !in done
    ensures HandlesOf(m, done + {k}) == HandlesOf(m, done) + {m.sessions[k]} && m.sessions[k] !in HandlesOf(m, done)
  {
  }

  class BrowserSessionManager {
    var sessions: map<Key, nat>
    var handles: seq<Handle>
    const config: Config

    ghost function View(): Manager
      reads this
    {
      Manager(sessions, handles)
    }

    constructor (config: Config)
      ensures View() == INITIAL.manager && this.config == config
    {
      this.config := config;
      sessions, handles := map[], [];
    }

    method TouchHandle(h: nat, now: int)
      requires h < |handles|
      modifies `handles
      ensures View() == SetHandle(old(View()), h, Touched(old(handles)[h], now))
    {
      handles := handles[h := Touched(handles[h], now)];
    }

    /** The fast path of `get_or_create`, under the read lock. */
    method LookUp(key: Key, now: int) returns (h: Option<nat>)
      requires WellFormed(View())
      modifies this
      ensures h == if key in old(sessions) then Some(old(sessions)[key]) else None
      ensures View() == if h.Some? then SetHandle(old(View()), h.value, Touched(old(handles)[h.value], now)) else old(View())
    {
      if key !in sessions { return None; }
      TouchHandle(sessions[key], now);
      h := Some(sessions[key]);
    }

    /** Removes sessions one by one and gives their handles, to be closed. */
    method RemoveSessions(keys: set<Key>, invalidate: bool) returns (evicted: seq<nat>)
      requires WellFormed(View()) && keys <= sessions.Keys
      modifies this
      ensures View() == Without(old(View()), keys, invalidate)
      ensures multiset(evicted) == multiset(HandlesOf(old(View()), keys))
    {
      hide WellFormed, HandlesOf;
      var todo := keys;
      evicted := [];
      ghost var before, done := View(), {};
      NoHandles(before);
      while todo != {}
        invariant todo <= keys && done == keys - todo
        invariant View() == Without(before, done, invalidate)
        invariant multiset(evicted) == multiset(HandlesOf(before, done))
        decreases |todo|
      {
        var k :| k in todo;
        var h := sessions[k];
        RemoveNext(before, done, k, invalidate);
        evicted := evicted + [h];
        sessions := sessions - {k};
        if invalidate {
          handles := handles[h := Invalidated(handles[h])];
        }
        todo := todo - {k};
        done := done + {k};
      }
      assert done == keys;
    }

    static lemma NoHandles(m: Manager)
      ensures HandlesOf(m, {}) == {} && Without(m, {}, true) == m == Without(m, {}, false)
    {
      assert m.sessions - {} == m.sessions;
    }

    static lemma RemoveNext(m: Manager, done: set<Key>, k: Key, invalidate: bool)
      requires WellFormed(m) && k in m.sessions && k !in done
      ensures var t, h := Without(m, done, invalidate), m.sessions[k];
              && k in t.sessions && t.sessions[k] == h && h < |t.handles|
              && Without(m, done + {k}, invalidate)
                 == Manager(t.sessions - {k}, if invalidate then t.handles[h := Invalidated(t.handles[h])] else t.handles)
      ensures multiset(HandlesOf(m, done + {k})) == multiset(HandlesOf(m, done)) + multiset{m.sessions[k]}
    {
      OneMore(m, done, k);
      hide HandlesOf;
      assert m.sessions - (done + {k}) == m.sessions - done - {k};
    }

    /** `min_by_key` over the last use; the order of the scan is the map's. */
    method FindOldest() returns (oldest: Option<Key>)
      requires WellFormed(View())
      ensures IsChoice(View(), oldest)
    {
      if sessions == map[] { return None; }
      var best :| best in sessions.Keys;
      var todo := sessions.Keys - {best};
      while todo != {}
        invariant best in sessions && todo <= sessions.Keys
        invariant forall l | l in sessions && l !in todo :: handles[sessions[best]].lastUsed <= handles[sessions[l]].lastUsed
        decreases |todo|
      {
        var l :| l in todo;
        if handles[sessions[l]].lastUsed < handles[sessions[best]].lastUsed {
          best := l;
        }
        todo := todo - {l};
      }
      oldest := Some(best);
    }

    /** The second stage: if still at capacity, the oldest session goes. */
    method EvictOldest() returns (evicted: seq<nat>, oldest: Option<Key>)
      requires WellFormed(View())
      modifies this
      ensures IsVictim(config, old(View()), oldest)
      ensures View() == Without(old(View()), SecondStage(config, old(View()), oldest), false)
      ensures multiset(evicted) == multiset(HandlesOf(old(View()), SecondStage(config, old(View()), oldest)))
    {
      hide IsOldest, HandlesOf;
      evicted, oldest := [], None;
      NoHandles(View());
      if |sessions| >= config.maxSessions {
        oldest := FindOldest();
        if oldest.Some? {
          ChosenIsTracked(View(), oldest);
          evicted := RemoveSessions({oldest.value}, false);
        }
      }
    }

    /** Both eviction stages, under the write lock. */
    method Evict(now: int) returns (evicted: seq<nat>, oldest: Option<Key>)
      requires WellFormed(View())
      modifies this
      ensures IsVictim(config, Without(old(View()), FirstStage(config, old(View()), now), false), oldest)
      ensures View() == Without(old(View()), Evicted(config, old(View()), now, oldest), false)
      ensures multiset(evicted) == multiset(HandlesOf(old(View()), Evicted(config, old(View()), now, oldest)))
    {
      hide IsStale, IsVictim, HandlesOf, SecondStage, WellFormed;
      evicted := [];
      ghost var before := View();
      NoHandles(before);
      if |sessions| >= config.maxSessions {
        evicted := RemoveSessions(StaleKeys(now), false);
      }
      ghost var stale := FirstStage(config, before, now);
      assert View() == Without(before, stale, false);
      RemoveKeepsWellFormed(before, stale, false);
      var last;
      last, oldest := EvictOldest();
      StagesAdd(config, before, stale, oldest);
      evicted := evicted + last;
    }

    /** The victims of the second stage come on top of those of the first. */
    static lemma StagesAdd(c: Config, m: Manager, stale: set<Key>, oldest: Option<Key>)
      requires WellFormed(m) && IsVictim(c, Without(m, stale, false), oldest)
      ensures var left := Without(m, stale, false); var victims := SecondStage(c, left, oldest);
              && Without(left, victims, false) == Without(m, stale + victims, false)
              && multiset(HandlesOf(m, stale + victims)) == multiset(HandlesOf(m, stale)) + multiset(HandlesOf(left, victims))
    {
      hide HandlesOf, WellFormed, IsOldest;
      var left := Without(m, stale, false);
      var victims := SecondStage(c, left, oldest);
      if victims == {} {
        NoHandles(left);
        assert stale + {} == stale;
      } else {
        ChosenIsTracked(left, oldest);
        TwoStages(m, stale, oldest.value);
      }
    }

    function StaleKeys(now: int): set<Key>
      reads this
      ensures StaleKeys(now) == Stale(config, Manager(sessions, handles), now)
    {
      Stale(config, Manager(sessions, handles), now)
    }

    static lemma ChosenIsTracked(m: Manager, oldest: Option<Key>)
      requires IsChoice(m, oldest) && oldest.Some?
      ensures oldest.value in m.sessions
    {
    }

    static lemma TwoStages(m: Manager, stale: set<Key>, k: Key)
      requires WellFormed(m) && k in m.sessions && k !in stale
      ensures Without(Without(m, stale, false), {k}, false) == Without(m, stale + {k}, false)
      ensures multiset(HandlesOf(m, stale + {k})) == multiset(HandlesOf(m, stale)) + multiset(HandlesOf(Without(m, stale, false), {k}))
    {
      OneMore(m, stale, k);
      assert HandlesOf(Without(m, stale, false), {k}) == {m.sessions[k]};
      assert m.sessions - stale - {k} == m.sessions - (stale + {k});
    }

    /** The slow path of `get_or_create`, under the write lock; `evicted` is handed to be closed. */
    method CreateSession(key: Key, now: int) returns (h: nat, evicted: seq<nat>, oldest: Option<Key>)
      requires WellFormed(View())
      modifies this
      ensures var m := old(View());
              if key in m.sessions then
                h == m.sessions[key] && evicted == [] && View() == SetHandle(m, h, Touched(m.handles[h], now))
              else
                && IsVictim(config, Without(m, FirstStage(config, m, now), false), oldest)
                && h == |m.handles| && View() == WithNew(Without(m, Evicted(config, m, now, oldest), false), key, now)
                && multiset(evicted) == multiset(HandlesOf(m, Evicted(config, m, now, oldest)))
    {
      hide IsVictim, Evicted, HandlesOf;
      evicted, oldest := [], None;
      if key in sessions {
        TouchHandle(sessions[key], now);
        h := sessions[key];
        return;
      }
      evicted, oldest := Evict(now);
      h := |handles|;
      handles := handles + [Handle(true, now, None)];
      sessions := sessions[key := h];
    }

    method InvalidateOriginSessions(origin: string) returns (evicted: seq<nat>)
      requires WellFormed(View())
      modifies this
      ensures View() == Without(old(View()), OfOrigin(old(View()), origin), true)
      ensures multiset(evicted) == multiset(HandlesOf(old(View()), OfOrigin(old(View()), origin)))
    {
      hide WellFormed, HandlesOf;
      evicted := RemoveSessions(set k | k in sessions && k.origin == origin, true);
    }

    method InvalidateAllSessions() returns (evicted: seq<nat>)
      requires WellFormed(View())
      modifies this
      ensures View() == Without(old(View()), old(sessions).Keys, true) && sessions == map[]
      ensures multiset(evicted) == multiset(HandlesOf(old(View()), old(sessions).Keys))
    {
      hide WellFormed, HandlesOf;
      evicted := RemoveSessions(sessions.Keys, true);
      assert sessions == map[];
    }

    method EvictIdleSessions(now: int) returns (evicted: seq<nat>, count: nat)
      requires WellFormed(View())
      modifies this
      ensures View() == Without(old(View()), Stale(config, old(View()), now), true)
      ensures multiset(evicted) == multiset(HandlesOf(old(View()), Stale(config, old(View()), now)))
      ensures count == |HandlesOf(old(View()), Stale(config, old(View()), now))|
    {
      hide WellFormed, HandlesOf, IsStale;
      evicted := RemoveSessions(StaleKeys(now), true);
      count := |evicted|;
      assert |multiset(evicted)| == |evicted|;
    }
  }
}
