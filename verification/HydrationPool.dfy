/** Loading pinned chats: every call starts a small pool of workers over its own list, and a
    guard set, shared by all calls, names the sessions that are being taken care of. A step
    is the code between two awaits. */
module HydrationPool {
  const CONCURRENCY := 5

  // ---------------------------------------------------------------- one call, as a value

  /** `Failed`: the load rejected, which ends the worker with its session still its own. */
  datatype Worker = Loading(k: nat) | Failed(k: nat) | Finished

  /** `started` logs the loads of this call, in order. */
  datatype Pool = Pool(ids: seq<string>, next: nat, workers: seq<Worker>, started: seq<string>)

  /** The sessions a call takes on: each once, in the order given. */
  function Queue(ids: seq<string>, except: set<string>): seq<string> {
    if ids == [] then []
    else
      var rest := Queue(ids[..|ids| - 1], except);
      var id := ids[|ids| - 1];
      if id == "" || id in except || id in rest then rest else rest + [id]
  }

  lemma {:induction false} QueueTakesEachOnce(ids: seq<string>, except: set<string>)
    ensures forall id :: id in Queue(ids, except) <==> id in ids && id != "" && id !in except
    ensures Distinct(Queue(ids, except))
  {
    if ids != [] {
      QueueTakesEachOnce(ids[..|ids| - 1], except);
      assert ids == ids[..|ids| - 1] + [ids[|ids| - 1]];
    }
  }

  predicate Distinct(ids: seq<string>) {
    forall i, j :: 0 <= i < |ids| && 0 <= j < |ids| && ids[i] == ids[j] ==> i == j
  }

  function Crew(ids: seq<string>): nat {
    if |ids| < CONCURRENCY then |ids| else CONCURRENCY
  }

  /** Each worker takes its first session before it awaits anything. */
  function NewPool(ids: seq<string>): Pool {
    Pool(ids, Crew(ids), seq(Crew(ids), (w: nat) => Loading(w)), ids[..Crew(ids)])
  }

  /** Worker `w` turns to the next session, if there is one. */
  function Take(p: Pool, w: nat): Pool
    requires w < |p.workers|
  {
    if p.next < |p.ids| then
      p.(next := p.next + 1, workers := p.workers[w := Loading(p.next)], started := p.started + [p.ids[p.next]])
    else p.(workers := p.workers[w := Finished])
  }

  predicate At(p: Pool, w: nat, k: nat) {
    w < |p.workers| && (p.workers[w] == Loading(k) || p.workers[w] == Failed(k))
  }

  /** Not yet loaded: still queued, or with a worker. */
  ghost predicate Open(p: Pool, k: nat) {
    k < |p.ids| && (k >= p.next || exists w: nat :: At(p, w, k))
  }

  ghost predicate PoolIsSound(p: Pool) {
    && Distinct(p.ids)
    && 1 <= |p.workers| <= CONCURRENCY && |p.workers| == Crew(p.ids)
    && p.next <= |p.ids| && p.started == p.ids[..p.next]
    && (forall w: nat, k: nat :: At(p, w, k) ==> k < p.next)
    && (forall w: nat, v: nat, k: nat :: At(p, w, k) && At(p, v, k) ==> w == v)
    && (Finished in p.workers ==> p.next == |p.ids|)
  }

  lemma NewPoolIsSound(ids: seq<string>)
    requires Distinct(ids) && ids != []
    ensures PoolIsSound(NewPool(ids))
    ensures forall k: nat :: Open(NewPool(ids), k) <==> k < |ids|
  {
    var p := NewPool(ids);
    forall k: nat ensures Open(p, k) <==> k < |ids| {
      if k < p.next {
        assert At(p, k, k);
      }
    }
  }

  /** Turning to the next session closes exactly the one that was loaded. */
  lemma TakeCloses(p: Pool, w: nat, k: nat)
    requires PoolIsSound(p) && w < |p.workers| && p.workers[w] == Loading(k)
    ensures PoolIsSound(Take(p, w))
    ensures forall l: nat :: Open(Take(p, w), l) <==> Open(p, l) && l != k
  {
    var q := Take(p, w);
    assert At(p, w, k);
    assert forall v: nat, l: nat :: At(q, v, l) <==>
        (v != w && At(p, v, l)) || (v == w && p.next < |p.ids| && l == p.next);
    assert p.next < |p.ids| ==> At(q, w, p.next) && p.ids[..p.next] + [p.ids[p.next]] == p.ids[..p.next + 1];
    forall l: nat ensures Open(q, l) <==> Open(p, l) && l != k {
      if Open(p, l) && l != k && l < p.next {
        var v: nat :| At(p, v, l);
        assert At(q, v, l);
      }
    }
  }

  function Fail(p: Pool, w: nat): Pool
    requires w < |p.workers| && p.workers[w].Loading?
  {
    p.(workers := p.workers[w := Failed(p.workers[w].k)])
  }

  lemma FailKeepsOpen(p: Pool, w: nat)
    requires PoolIsSound(p) && w < |p.workers| && p.workers[w].Loading?
    ensures PoolIsSound(Fail(p, w))
    ensures forall l: nat :: Open(Fail(p, w), l) <==> Open(p, l)
  {
    var q := Fail(p, w);
    assert forall v: nat, l: nat :: At(q, v, l) <==> At(p, v, l);
  }

  // ---------------------------------------------------------------- all calls

  datatype State = State(guard: set<string>, pools: seq<Pool>)

  /** `ready` are the sessions that are being created or already have messages. */
  datatype Event = Hydrate(ids: seq<string>, ready: set<string>) | Resolve(i: nat, w: nat) | Reject(i: nat, w: nat)

  const INITIAL := State({}, [])

  predicate InFlight(s: State, i: nat, w: nat) {
    i < |s.pools| && w < |s.pools[i].workers| && s.pools[i].workers[w].Loading? &&
        s.pools[i].workers[w].k < |s.pools[i].ids|
  }

  function Session(s: State, i: nat, w: nat): string
    requires InFlight(s, i, w)
  {
    s.pools[i].ids[s.pools[i].workers[w].k]
  }

  predicate Enabled(s: State, e: Event) {
    e.Hydrate? || InFlight(s, e.i, e.w)
  }

  function Elements(ids: seq<string>): set<string> {
    set id | id in ids
  }

  function Step(s: State, e: Event): State
    requires Enabled(s, e)
  {
    match e
    case Hydrate(ids, ready) =>
      var queue := Queue(ids, s.guard + ready);
      if queue == [] then s else State(s.guard + Elements(queue), s.pools + [NewPool(queue)])
    case Resolve(i, w) => State(s.guard - {Session(s, i, w)}, s.pools[i := Take(s.pools[i], w)])
    case Reject(i, w) => s.(pools := s.pools[i := Fail(s.pools[i], w)])
  }

  ghost predicate Runs(s: State, es: seq<Event>, t: State)
    decreases |es|
  {
    if es == [] then s == t else Enabled(s, es[0]) && Runs(Step(s, es[0]), es[1..], t)
  }

  ghost predicate Has(s: State, i: nat, k: nat, id: string) {
    i < |s.pools| && Open(s.pools[i], k) && s.pools[i].ids[k] == id
  }

  /** The guard names exactly the sessions some call has open, and no two calls share one. */
  ghost predicate Guarded(s: State) {
    && (forall p :: p in s.pools ==> PoolIsSound(p))
    && (forall i: nat, k: nat, id :: Has(s, i, k, id) ==> id in s.guard)
    && (forall id :: id in s.guard ==> exists i: nat, k: nat :: Has(s, i, k, id))
    && (forall i: nat, k: nat, j: nat, l: nat, id :: Has(s, i, k, id) && Has(s, j, l, id) ==> i == j && k == l)
  }

  lemma HydrateKeepsGuarded(s: State, ids: seq<string>, ready: set<string>)
    requires Guarded(s)
    ensures Guarded(Step(s, Hydrate(ids, ready)))
  {
    var queue, t := Queue(ids, s.guard + ready), Step(s, Hydrate(ids, ready));
    if queue != [] {
      QueueTakesEachOnce(ids, s.guard + ready);
      NewPoolIsSound(queue);
      var n := |s.pools|;
      assert forall i: nat, k: nat, id :: Has(t, i, k, id) <==>
          Has(s, i, k, id) || (i == n && k < |queue| && queue[k] == id);
      forall id | id in t.guard ensures exists i: nat, k: nat :: Has(t, i, k, id) {
        if id in s.guard {
          var i: nat, k: nat :| Has(s, i, k, id);
          assert Has(t, i, k, id);
        } else {
          var k :| 0 <= k < |queue| && queue[k] == id;
          assert Has(t, n, k, id);
        }
      }
    }
  }

  lemma ResolveKeepsGuarded(s: State, i: nat, w: nat)
    requires Guarded(s) && InFlight(s, i, w)
    ensures Guarded(Step(s, Resolve(i, w)))
  {
    var t, p := Step(s, Resolve(i, w)), s.pools[i];
    var k := p.workers[w].k;
    TakeCloses(p, w, k);
    assert At(p, w, k);
    assert Has(s, i, k, p.ids[k]);
    assert forall j: nat, l: nat, id :: Has(t, j, l, id) <==> Has(s, j, l, id) && !(j == i && l == k);
    forall id | id in t.guard ensures exists j: nat, l: nat :: Has(t, j, l, id) {
      var j: nat, l: nat :| Has(s, j, l, id);
      assert Has(t, j, l, id);
    }
  }

  lemma RejectKeepsGuarded(s: State, i: nat, w: nat)
    requires Guarded(s) && InFlight(s, i, w)
    ensures Guarded(Step(s, Reject(i, w)))
  {
    var t := Step(s, Reject(i, w));
    FailKeepsOpen(s.pools[i], w);
    assert forall j: nat, l: nat, id :: Has(t, j, l, id) <==> Has(s, j, l, id);
  }

  lemma {:induction false} RunsStayGuarded(s: State, es: seq<Event>, t: State)
    requires Guarded(s) && Runs(s, es, t)
    ensures Guarded(t)
    decreases |es|
  {
    if es != [] {
      match es[0] {
        case Hydrate(ids, ready) => HydrateKeepsGuarded(s, ids, ready);
        case Resolve(i, w) => ResolveKeepsGuarded(s, i, w);
        case Reject(i, w) => RejectKeepsGuarded(s, i, w);
      }
      RunsStayGuarded(Step(s, es[0]), es[1..], t);
    }
  }

  // ---------------------------------------------------------------- what holds of every run

  /** Under every interleaving no session is in flight twice, whether for one call or two;
      no call has more than five in flight; and a call starts its sessions in order, each
      at most once. */
  lemma NoSessionIsLoadedTwiceAtOnce(es: seq<Event>, s: State)
    requires Runs(INITIAL, es, s)
    ensures forall i: nat, w: nat, j: nat, v: nat ::
              InFlight(s, i, w) && InFlight(s, j, v) && Session(s, i, w) == Session(s, j, v) ==> i == j && w == v
    ensures forall p :: p in s.pools ==>
              |p.workers| <= 5 && p.next <= |p.ids| && p.started == p.ids[..p.next] && Distinct(p.started)
    ensures forall p :: p in s.pools ==> |p.workers| == 5 || |p.workers| == |p.ids|
  {
    RunsStayGuarded(INITIAL, es, s);
    forall i: nat, w: nat, j: nat, v: nat | InFlight(s, i, w) && InFlight(s, j, v) &&
        Session(s, i, w) == Session(s, j, v)
      ensures i == j && w == v
    {
      var k, l := s.pools[i].workers[w].k, s.pools[j].workers[v].k;
      assert At(s.pools[i], w, k) && At(s.pools[j], v, l);
      assert PoolIsSound(s.pools[i]);
      assert Has(s, i, k, Session(s, i, w)) && Has(s, j, l, Session(s, j, v));
    }
  }

  lemma StepKeepsIds(s: State, e: Event, i: nat)
    requires Enabled(s, e) && i < |s.pools|
    ensures i < |Step(s, e).pools| && Step(s, e).pools[i].ids == s.pools[i].ids
  {
  }

  lemma {:induction false} RunsKeepIds(s: State, es: seq<Event>, t: State, i: nat)
    requires Runs(s, es, t) && i < |s.pools|
    ensures i < |t.pools| && t.pools[i].ids == s.pools[i].ids
    decreases |es|
  {
    if es != [] {
      StepKeepsIds(s, es[0], i);
      RunsKeepIds(Step(s, es[0]), es[1..], t, i);
    }
  }

  /** In no run does a call ever start loading a session that was ready when it was made, or
      that was in the guard, or the empty one; and its queue is exactly the others it was
      given. A call with nothing to do starts nothing. */
  lemma ReadySessionsAreNeverStarted(before: seq<Event>, s: State, ids: seq<string>, ready: set<string>,
                                     after: seq<Event>, t: State)
    requires Runs(INITIAL, before, s) && Runs(Step(s, Hydrate(ids, ready)), after, t)
    ensures var wanted := forall id :: id in ids ==> id == "" || id in ready || id in s.guard;
            if wanted then Step(s, Hydrate(ids, ready)) == s
            else
              && |s.pools| < |t.pools|
              && (forall id :: id in t.pools[|s.pools|].ids <==>
                              id in ids && id != "" && id !in ready && id !in s.guard)
              && (forall id :: id in t.pools[|s.pools|].started ==> id in ids && id !in ready && id !in s.guard)
  {
    var u := Step(s, Hydrate(ids, ready));
    QueueTakesEachOnce(ids, s.guard + ready);
    var queue := Queue(ids, s.guard + ready);
    assert queue == [] || queue[0] in queue;
    if exists id :: id in ids && id != "" && id !in ready && id !in s.guard {
      var id :| id in ids && id != "" && id !in ready && id !in s.guard;
      assert id in queue;
      RunsStayGuarded(INITIAL, before, s);
      HydrateKeepsGuarded(s, ids, ready);
      RunsStayGuarded(u, after, t);
      RunsKeepIds(u, after, t, |s.pools|);
      var p := t.pools[|s.pools|];
      assert PoolIsSound(p) && p.ids == queue;
    }
  }

  ghost predicate Quiescent(s: State) {
    forall i: nat, w: nat :: !InFlight(s, i, w)
  }

  predicate HasFailed(p: Pool) {
    exists w :: 0 <= w < |p.workers| && p.workers[w].Failed?
  }

  lemma QuietPool(s: State, i: nat)
    requires Guarded(s) && Quiescent(s) && i < |s.pools| && !HasFailed(s.pools[i])
    ensures s.pools[i].started == s.pools[i].ids && forall k: nat :: !Open(s.pools[i], k)
  {
    var p := s.pools[i];
    assert PoolIsSound(p);
    forall w: nat | w < |p.workers| ensures p.workers[w].Finished? {
      assert !InFlight(s, i, w);
      assert p.workers[w].Loading? ==> At(p, w, p.workers[w].k);
    }
    assert p.workers[0] in p.workers;
  }

  /** A load that settles leaves the guard, and its worker starts the call's next session or
      ends; every other worker goes on as it was. */
  lemma ResolveGoesOn(s: State, i: nat, w: nat)
    requires InFlight(s, i, w)
    ensures var p, t := s.pools[i], Step(s, Resolve(i, w));
            && t.guard == s.guard - {p.ids[p.workers[w].k]} && |t.pools| == |s.pools|
            && (forall j :: 0 <= j < |s.pools| && j != i ==> t.pools[j] == s.pools[j])
            && |t.pools[i].workers| == |p.workers|
            && (forall v :: 0 <= v < |p.workers| && v != w ==> t.pools[i].workers[v] == p.workers[v])
            && if p.next < |p.ids| then
                 && t.pools[i].started == p.started + [p.ids[p.next]] && t.pools[i].next == p.next + 1
                 && InFlight(t, i, w) && Session(t, i, w) == p.ids[p.next]
               else t.pools[i].workers[w] == Finished && t.pools[i].started == p.started
  {
  }

  /** A load that rejects ends its worker and changes nothing else. */
  lemma RejectEndsTheWorker(s: State, i: nat, w: nat)
    requires InFlight(s, i, w)
    ensures var p, t := s.pools[i], Step(s, Reject(i, w));
            && t.guard == s.guard && |t.pools| == |s.pools|
            && (forall j :: 0 <= j < |s.pools| && j != i ==> t.pools[j] == s.pools[j])
            && t.pools[i] == Pool(p.ids, p.next, p.workers[w := Failed(p.workers[w].k)], p.started)
  {
  }

  function Flying(workers: seq<Worker>): nat {
    if workers == [] then 0 else (if workers[0].Loading? then 1 else 0) + Flying(workers[1..])
  }

  lemma {:induction false} FlyingUpdate(workers: seq<Worker>, w: nat, x: Worker)
    requires w < |workers|
    ensures Flying(workers[w := x]) + (if workers[w].Loading? then 1 else 0) ==
            Flying(workers) + (if x.Loading? then 1 else 0)
  {
    var after := workers[w := x];
    if w == 0 {
      assert after[1..] == workers[1..];
    } else {
      FlyingUpdate(workers[1..], w - 1, x);
      assert after[1..] == workers[1..][w - 1 := x];
    }
  }

  lemma {:induction false} AllFlying(workers: seq<Worker>)
    requires forall w :: 0 <= w < |workers| ==> workers[w].Loading?
    ensures Flying(workers) == |workers|
  {
    if workers != [] {
      AllFlying(workers[1..]);
    }
  }

  /** The loads started by now that are over. */
  function Over(pools: seq<Pool>): int {
    if pools == [] then 0 else |pools[0].started| - Flying(pools[0].workers) + Over(pools[1..])
  }

  lemma {:induction false} OverUpdate(pools: seq<Pool>, i: nat, p: Pool)
    requires i < |pools|
    ensures Over(pools[i := p]) - Over(pools) ==
            |p.started| - Flying(p.workers) - |pools[i].started| + Flying(pools[i].workers)
  {
    var after := pools[i := p];
    if i == 0 {
      assert after[1..] == pools[1..];
    } else {
      OverUpdate(pools[1..], i - 1, p);
      assert after[1..] == pools[1..][i - 1 := p];
    }
  }

  lemma {:induction false} OverAppend(pools: seq<Pool>, p: Pool)
    ensures Over(pools + [p]) == Over(pools) + |p.started| - Flying(p.workers)
  {
    var all := pools + [p];
    if pools == [] {
      assert all[1..] == [];
    } else {
      assert all[1..] == pools[1..] + [p];
      OverAppend(pools[1..], p);
    }
  }

  function Settlings(es: seq<Event>): nat {
    if es == [] then 0 else (if es[0].Hydrate? then 0 else 1) + Settlings(es[1..])
  }

  lemma StepSettles(s: State, e: Event)
    requires Enabled(s, e)
    ensures Over(Step(s, e).pools) == Over(s.pools) + (if e.Hydrate? then 0 else 1)
  {
    match e
    case Hydrate(ids, ready) =>
      var queue := Queue(ids, s.guard + ready);
      var p := NewPool(queue);
      AllFlying(p.workers);
      OverAppend(s.pools, p);
    case Resolve(i, w) =>
      var p := s.pools[i];
      OverUpdate(s.pools, i, Take(p, w));
      FlyingUpdate(p.workers, w, if p.next < |p.ids| then Loading(p.next) else Finished);
    case Reject(i, w) =>
      var p := s.pools[i];
      OverUpdate(s.pools, i, Fail(p, w));
      FlyingUpdate(p.workers, w, Failed(p.workers[w].k));
  }

  /** Every load that was started is in flight or has settled, once: over every run the
      started loads less those in flight are as many as the answers that came. */
  lemma {:induction false} EveryLoadSettlesOnce(s: State, es: seq<Event>, t: State)
    requires Runs(s, es, t)
    ensures Over(t.pools) == Over(s.pools) + Settlings(es)
    decreases |es|
  {
    if es != [] {
      StepSettles(s, es[0]);
      EveryLoadSettlesOnce(Step(s, es[0]), es[1..], t);
    }
  }

  /** Once nothing is in flight, every call none of whose loads rejected has loaded each of
      its sessions exactly once, and the guard is empty exactly when no load ever rejected:
      a rejecting load leaves its session in the guard for good. */
  lemma EverySessionIsLoaded(es: seq<Event>, s: State)
    requires Runs(INITIAL, es, s) && Quiescent(s)
    ensures forall p :: p in s.pools && !HasFailed(p) ==> p.started == p.ids && Distinct(p.ids)
    ensures s.guard == {} <==> forall p :: p in s.pools ==> !HasFailed(p)
  {
    RunsStayGuarded(INITIAL, es, s);
    forall p | p in s.pools && !HasFailed(p) ensures p.started == p.ids && Distinct(p.ids) {
      var i :| 0 <= i < |s.pools| && s.pools[i] == p;
      QuietPool(s, i);
    }
    if p :| p in s.pools && HasFailed(p) {
      var i :| 0 <= i < |s.pools| && s.pools[i] == p;
      var w :| 0 <= w < |p.workers| && p.workers[w].Failed?;
      assert At(p, w, p.workers[w].k);
      assert Has(s, i, p.workers[w].k, p.ids[p.workers[w].k]);
    } else if s.guard != {} {
      var id :| id in s.guard;
      var i: nat, k: nat :| Has(s, i, k, id);
      assert s.pools[i] in s.pools;
      QuietPool(s, i);
    }
  }

  lemma OneSessionIsHydrated(id: string)
    requires id != ""
    ensures Step(INITIAL, Hydrate([id], {})) == State({id}, [Pool([id], 1, [Loading(0)], [id])])
  {
    var ids := [id];
    assert ids[..0] == [] && Queue([], {}) == [] && Queue(ids, {}) == ids;
    assert INITIAL.guard + {} == {};
    assert Elements(ids) == {id};
    assert NewPool(ids).workers == [Loading(0)] && ids[..1] == ids;
  }

  lemma OneLoadRejects(id: string)
    ensures var s := State({id}, [Pool([id], 1, [Loading(0)], [id])]);
            && Enabled(s, Reject(0, 0)) && Quiescent(Step(s, Reject(0, 0))) && Step(s, Reject(0, 0)).guard == {id}
  {
    var s := State({id}, [Pool([id], 1, [Loading(0)], [id])]);
    var p := s.pools[0];
    assert p.workers[0] == Loading(0) && InFlight(s, 0, 0);
    assert p.workers[0 := Failed(0)] == [Failed(0)];
    assert Step(s, Reject(0, 0)).pools == [Pool([id], 1, [Failed(0)], [id])];
  }

  lemma TwoSteps(a: Event, b: Event)
    requires Enabled(INITIAL, a) && Enabled(Step(INITIAL, a), b)
    ensures Runs(INITIAL, [a, b], Step(Step(INITIAL, a), b))
  {
    var s, t := Step(INITIAL, a), Step(Step(INITIAL, a), b);
    assert Runs(t, [], t);
    assert [b][1..] == [] && Runs(s, [b], t);
    assert [a, b][1..] == [b];
  }

  /** It does happen: one call, one session, one load that rejects. */
  lemma RejectedLoadStaysInGuard()
    ensures var es := [Hydrate(["a"], {}), Reject(0, 0)];
            exists s :: Runs(INITIAL, es, s) && Quiescent(s) && s.guard == {"a"}
  {
    OneSessionIsHydrated("a");
    OneLoadRejects("a");
    TwoSteps(Hydrate(["a"], {}), Reject(0, 0));
  }

  // ---------------------------------------------------------------- the shell

  class Hydrator {
    var guard: set<string>
    var pools: seq<Pool>

    function Model(): State
      reads this
    {
      State(guard, pools)
    }

    constructor ()
      ensures Model() == INITIAL
    {
      guard, pools := {}, [];
    }

    method Select(ids: seq<string>, ready: set<string>) returns (queue: seq<string>)
      ensures queue == Queue(ids, guard + ready)
    {
      queue := [];
      for n := 0 to |ids|
        invariant queue == Queue(ids[..n], guard + ready)
      {
        var id := ids[n];
        assert ids[..n + 1][..n] == ids[..n];
        if id != "" && id !in guard && id !in ready && id !in queue {
          queue := queue + [id];
        }
      }
      assert ids[..|ids|] == ids;
    }

    method HydratePinnedChatSessions(ids: seq<string>, ready: set<string>)
      modifies this
      ensures Model() == Step(old(Model()), Hydrate(ids, ready))
    {
      var queue := Select(ids, ready);
      if queue == [] {
        return;
      }
      for n := 0 to |queue|
        invariant guard == old(guard) + Elements(queue[..n]) && pools == old(pools)
      {
        assert Elements(queue[..n + 1]) == Elements(queue[..n]) + {queue[n]};
        guard := guard + {queue[n]};
      }
      assert queue[..|queue|] == queue;
      var p := StartWorkers(queue);
      pools := pools + [p];
    }

    method StartWorkers(queue: seq<string>) returns (p: Pool)
      ensures p == NewPool(queue)
    {
      var next, workers, started := 0, [], [];
      while |workers| < CONCURRENCY && |workers| < |queue|
        invariant |workers| == next <= Crew(queue)
        invariant forall w: nat :: w < next ==> workers[w] == Loading(w)
        invariant started == queue[..next]
      {
        started := started + [queue[next]];
        workers := workers + [Loading(next)];
        next := next + 1;
      }
      p := Pool(queue, next, workers, started);
    }

    /** A load has settled without rejecting, whether it found messages or not. */
    method LoadResolved(i: nat, w: nat)
      requires InFlight(Model(), i, w)
      modifies this
      ensures Model() == Step(old(Model()), Resolve(i, w))
    {
      var p := pools[i];
      guard := guard - {p.ids[p.workers[w].k]};
      if p.next < |p.ids| {
        p := p.(next := p.next + 1, workers := p.workers[w := Loading(p.next)], started := p.started + [p.ids[p.next]]);
      } else {
        p := p.(workers := p.workers[w := Finished]);
      }
      pools := pools[i := p];
    }

    method LoadRejected(i: nat, w: nat)
      requires InFlight(Model(), i, w)
      modifies this`pools
      ensures Model() == Step(old(Model()), Reject(i, w))
    {
      var p := pools[i];
      pools := pools[i := p.(workers := p.workers[w := Failed(p.workers[w].k)])];
    }
  }
}
