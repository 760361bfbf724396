/**
 Sharing of requests in flight (useCustomHomeCatalog.ts, `requestOnce`): callers
 of one key get the pending response, and its end makes room for a new request.
 */
module RequestSharing {
  import opened Wrappers

  type Key = string

  /** Requests are numbered as they start; `started` holds their keys. */
  datatype State = State(
    pending: map<Key, nat>,
    started: seq<Key>,
    settled: set<nat>,
    awaiting: map<nat, nat>)

  datatype Step = Call(caller: nat, key: Key) | Settle(request: nat)

  const INITIAL := State(map[], [], {}, map[])

  predicate InFlight(s: State, r: nat) {
    r < |s.started| && r !in s.settled
  }

  predicate Enabled(s: State, step: Step) {
    match step
    case Call(caller, _) => caller !in s.awaiting
    case Settle(r) => InFlight(s, r)
  }

  /** The `finally` of a request deletes its key, whichever request the key leads to. */
  function Apply(s: State, step: Step): State
    requires Enabled(s, step)
  {
    match step
    case Call(caller, key) =>
      if key in s.pending then s.(awaiting := s.awaiting[caller := s.pending[key]])
      else s.(pending := s.pending[key := |s.started|], started := s.started + [key],
              awaiting := s.awaiting[caller := |s.started|])
    case Settle(r) => s.(pending := s.pending - {s.started[r]}, settled := s.settled + {r})
  }

  ghost predicate Run(s: State, steps: seq<Step>, t: State)
    decreases |steps|
  {
    if steps == [] then s == t else Enabled(s, steps[0]) && Run(Apply(s, steps[0]), steps[1..], t)
  }

  /** The table holds exactly the requests in flight, each under its key. */
  ghost predicate Inv(s: State) {
    && (forall k | k in s.pending :: InFlight(s, s.pending[k]) && s.started[s.pending[k]] == k)
    && (forall r | 0 <= r < |s.started| && r !in s.settled :: s.started[r] in s.pending && s.pending[s.started[r]] == r)
    && (forall c | c in s.awaiting :: s.awaiting[c] < |s.started|)
    && (forall r | r in s.settled :: r < |s.started|)
  }

  lemma StepKeeps(s: State, step: Step)
    requires Inv(s) && Enabled(s, step)
    ensures Inv(Apply(s, step))
  {
  }

  lemma {:induction false} RunKeeps(s: State, steps: seq<Step>, t: State)
    requires Inv(s) && Run(s, steps, t)
    ensures Inv(t) && s.started <= t.started
    decreases |steps|
  {
    if steps != [] {
      StepKeeps(s, steps[0]);
      RunKeeps(Apply(s, steps[0]), steps[1..], t);
    }
  }

  /** On every schedule at most one request per key is in flight. */
  lemma OneRequestPerKey(steps: seq<Step>, t: State, q: nat, r: nat)
    requires Run(INITIAL, steps, t) && InFlight(t, q) && InFlight(t, r) && t.started[q] == t.started[r]
    ensures q == r
  {
    RunKeeps(INITIAL, steps, t);
  }

  /** A call starts a request exactly when none is in flight for its key, and always awaits one for its key in flight. */
  lemma CallSharesIff(steps: seq<Step>, s: State, caller: nat, key: Key)
    requires Run(INITIAL, steps, s) && caller !in s.awaiting
    ensures var t := Apply(s, Call(caller, key));
            && InFlight(t, t.awaiting[caller]) && t.started[t.awaiting[caller]] == key
            && (|t.started| == |s.started| <==> exists r: nat :: InFlight(s, r) && s.started[r] == key)
  {
    RunKeeps(INITIAL, steps, s);
    if key in s.pending {
      assert InFlight(s, s.pending[key]);
    }
  }

  class RequestTable {
    var pending: map<Key, nat>
    ghost var started: seq<Key>
    ghost var settled: set<nat>
    ghost var awaiting: map<nat, nat>
    var count: nat

    ghost function View(): State
      reads this
    {
      State(pending, started, settled, awaiting)
    }

    constructor ()
      ensures View() == INITIAL && count == 0
    {
      pending, started, settled, awaiting, count := map[], [], {}, map[], 0;
    }

    method RequestOnce(caller: nat, key: Key) returns (request: nat)
      requires Inv(View()) && count == |started| && caller !in awaiting
      modifies this
      ensures View() == Apply(old(View()), Call(caller, key)) && count == |started|
      ensures request == awaiting[caller]
    {
      if key in pending {
        request := pending[key];
      } else {
        request := count;
        started := started + [key];
        count := count + 1;
        pending := pending[key := request];
      }
      awaiting := awaiting[caller := request];
    }

    method SettleRequest(request: nat, key: Key)
      requires Inv(View()) && InFlight(View(), request) && started[request] == key
      modifies `pending, `settled
      ensures View() == Apply(old(View()), Settle(request))
    {
      settled := settled + {request};
      pending := pending - {key};
    }
  }
}
