/** The per-session GET streams of the ACP HTTP transport. The model's steps are the
    stretches of code between two awaits, in any interleaving; the fetches and stream
    bodies themselves are the environment. */
module SessionStreams {
  import opened Wrappers

  // ---------------------------------------------------------------- one table, as a value

  /** `Opening`: the fetch has not settled. `Live`: its body is being consumed. */
  datatype Phase = Opening | Live | Ended

  datatype Stream = Stream(session: string, phase: Phase, aborted: bool)

  /** `owner` names, for each session, the stream that holds its table entry. A stream's
      index stands for its AbortController. */
  datatype Tables = Tables(connected: bool, owner: map<string, nat>, streams: seq<Stream>)

  datatype Event =
    | Connect
    | Open(session: string)
    | FetchFails(id: nat)
    | FetchSucceeds(id: nat)
    | BodyEnds(id: nat)
    | AbortAll

  predicate InPhase(t: Tables, id: nat, phase: Phase) {
    id < |t.streams| && t.streams[id].phase == phase
  }

  predicate Enabled(t: Tables, e: Event) {
    match e
    case FetchFails(id) => InPhase(t, id, Opening)
    case FetchSucceeds(id) => InPhase(t, id, Opening)
    case BodyEnds(id) => InPhase(t, id, Live)
    case _ => true
  }

  function SetPhase(streams: seq<Stream>, id: nat, phase: Phase): seq<Stream>
    requires id < |streams|
  {
    streams[id := streams[id].(phase := phase)]
  }

  function Aborted(streams: seq<Stream>): (r: seq<Stream>)
    ensures |r| == |streams|
    ensures forall i :: 0 <= i < |r| ==> r[i] == streams[i].(aborted := true)
  {
    seq(|streams|, i requires 0 <= i < |streams| => streams[i].(aborted := true))
  }

  /** A failed fetch gives its session's entry up without looking whose entry it is;
      a finished body looks first. */
  function Step(t: Tables, e: Event): Tables
    requires Enabled(t, e)
  {
    match e
    case Connect => t.(connected := true)
    case Open(s) =>
      if !t.connected || s in t.owner then t
      else t.(owner := t.owner[s := |t.streams|], streams := t.streams + [Stream(s, Opening, false)])
    case FetchFails(id) =>
      t.(owner := t.owner - {t.streams[id].session}, streams := SetPhase(t.streams, id, Ended))
    case FetchSucceeds(id) => t.(streams := SetPhase(t.streams, id, Live))
    case BodyEnds(id) =>
      var s := t.streams[id].session;
      t.(owner := if s in t.owner && t.owner[s] == id then t.owner - {s} else t.owner,
         streams := SetPhase(t.streams, id, Ended))
    case AbortAll => t.(owner := map[], streams := Aborted(t.streams))
  }

  const INITIAL := Tables(false, map[], [])

  /** Once connected, always connected, and connecting does just that. */
  lemma ConnectionStays(t: Tables, e: Event)
    requires Enabled(t, e)
    ensures Step(t, e).connected <==> t.connected || e.Connect?
    ensures e.Connect? ==> Step(t, e).owner == t.owner && Step(t, e).streams == t.streams
  {
  }

  /** Opening a session's stream starts exactly one, owned by the session, when connected and
      none is registered; otherwise it does nothing. */
  lemma OpeningOpens(t: Tables, session: string)
    ensures var u := Step(t, Open(session));
            if t.connected && session !in t.owner
            then |u.streams| == |t.streams| + 1 && u.streams[..|t.streams|] == t.streams && Opens(u, |t.streams|) &&
                 Active(u, |t.streams|) && u.streams[|t.streams|].session == session &&
                 u.owner == t.owner[session := |t.streams|] && u.connected
            else u == t
  {
  }

  /** The life of a stream: a fetch that fails ends it and frees its session; one that
      succeeds makes it live, until its body ends, which frees the session again. */
  lemma StreamsLiveAndEnd(t: Tables, session: string)
    requires t.connected && session !in t.owner
    ensures var id, u := |t.streams|, Step(t, Open(session));
            && Enabled(u, FetchFails(id)) && Enabled(u, FetchSucceeds(id)) && !Enabled(u, BodyEnds(id))
            && session !in Step(u, FetchFails(id)).owner && !Active(Step(u, FetchFails(id)), id)
            && var v := Step(u, FetchSucceeds(id));
               && Active(v, id) && !Opens(v, id) && v.owner == u.owner && Enabled(v, BodyEnds(id))
               && session !in Step(v, BodyEnds(id)).owner && !Active(Step(v, BodyEnds(id)), id)
  {
  }

  /** `t` followed by the events, in order; defined when each is enabled in its turn. */
  ghost predicate Runs(t: Tables, es: seq<Event>, u: Tables)
    decreases |es|
  {
    if es == [] then t == u
    else Enabled(t, es[0]) && Runs(Step(t, es[0]), es[1..], u)
  }

  // ---------------------------------------------------------------- at most one stream per session

  /** Opening or live, and not told to stop. */
  predicate Active(t: Tables, id: nat) {
    id < |t.streams| && t.streams[id].phase != Ended && !t.streams[id].aborted
  }

  ghost predicate OnePerSession(t: Tables) {
    forall i: nat, j: nat :: Active(t, i) && Active(t, j) && t.streams[i].session == t.streams[j].session ==> i == j
  }

  predicate Opens(t: Tables, id: nat) {
    InPhase(t, id, Opening)
  }

  /** The table holds exactly the active streams, and no stopped fetch is still pending. */
  ghost predicate Settled(t: Tables) {
    && (forall i: nat :: Active(t, i) ==> t.streams[i].session in t.owner && t.owner[t.streams[i].session] == i)
    && (forall s :: s in t.owner ==> Active(t, t.owner[s]) && t.streams[t.owner[s]].session == s)
    && (forall i: nat :: Opens(t, i) ==> !t.streams[i].aborted)
  }

  lemma SettledStep(t: Tables, e: Event)
    requires Settled(t) && Enabled(t, e)
    requires e.AbortAll? ==> forall i: nat :: !Opens(t, i)
    ensures Settled(Step(t, e))
  {
    var u := Step(t, e);
    forall i: nat | Active(u, i)
      ensures u.streams[i].session in u.owner && u.owner[u.streams[i].session] == i
    {
      if i < |t.streams| {
        assert Active(t, i) || e.AbortAll?;
      }
    }
    forall s | s in u.owner
      ensures Active(u, u.owner[s]) && u.streams[u.owner[s]].session == s
    {
      if s in t.owner {
        assert u.owner[s] == t.owner[s];
        assert Active(t, t.owner[s]);
      }
    }
    forall i: nat | Opens(u, i)
      ensures !u.streams[i].aborted
    {
      assert i < |t.streams| ==> Opens(t, i);
    }
  }

  /** No abort happens while a fetch is pending. */
  ghost predicate AbortsAreQuiet(t: Tables, es: seq<Event>)
    decreases |es|
  {
    es != [] && Enabled(t, es[0]) ==>
      (es[0].AbortAll? ==> forall i: nat :: !Opens(t, i)) && AbortsAreQuiet(Step(t, es[0]), es[1..])
  }

  lemma {:induction false} SettledRun(t: Tables, es: seq<Event>, u: Tables)
    requires Settled(t) && Runs(t, es, u) && AbortsAreQuiet(t, es)
    ensures Settled(u)
    decreases |es|
  {
    if es != [] {
      SettledStep(t, es[0]);
      SettledRun(Step(t, es[0]), es[1..], u);
    }
  }

  /** From the start, under every interleaving, at most one stream per session is
      opening or live, as long as nothing is aborted while a fetch is pending. */
  lemma OneStreamPerSession(es: seq<Event>, u: Tables)
    requires Runs(INITIAL, es, u) && AbortsAreQuiet(INITIAL, es)
    ensures OnePerSession(u)
    ensures u.owner.Keys == set i: nat | i < |u.streams| && Active(u, i) :: u.streams[i].session
  {
    SettledRun(INITIAL, es, u);
  }

  lemma {:induction false} NoAbortIsQuiet(t: Tables, es: seq<Event>)
    requires AbortAll !in es
    ensures AbortsAreQuiet(t, es)
    decreases |es|
  {
    if es != [] && Enabled(t, es[0]) {
      NoAbortIsQuiet(Step(t, es[0]), es[1..]);
    }
  }

  /** Whatever follows an abort, without a further one, keeps one stream per session. */
  ghost predicate StaysSingle(t: Tables) {
    forall es: seq<Event>, u: Tables :: AbortAll !in es && Runs(t, es, u) ==> OnePerSession(u)
  }

  /** The run that breaks it: the entry of a fresh stream is given up by the stale fetch,
      so the session is opened a second time. */
  lemma StaleFetchOpensTwice(t: Tables, id: nat)
    requires t.connected && Settled(t) && Opens(t, id)
    ensures !StaysSingle(Step(t, AbortAll))
  {
    var s := t.streams[id].session;
    var t0 := Step(t, AbortAll);
    var t1 := Step(t0, Open(s));
    var t2 := Step(t1, FetchFails(id));
    var t3 := Step(t2, Open(s));
    assert Runs(t3, [], t3);
    var es := [Open(s), FetchFails(id), Open(s)];
    assert es[1..] == [FetchFails(id), Open(s)] && es[1..][1..] == [Open(s)] && es[1..][1..][1..] == [];
    assert Runs(t2, es[1..][1..], t3);
    assert Runs(t1, es[1..], t3);
    assert Runs(t0, es, t3);
    assert Active(t3, |t.streams|) && Active(t3, |t.streams| + 1);
    assert !OnePerSession(t3);
  }

  /** Aborting all streams keeps the promise exactly when no fetch is pending. */
  lemma AbortIsSafeIffNoFetchIsPending(t: Tables)
    requires t.connected && Settled(t)
    ensures StaysSingle(Step(t, AbortAll)) <==> forall i: nat :: !Opens(t, i)
  {
    if i: nat :| Opens(t, i) {
      StaleFetchOpensTwice(t, i);
    } else {
      SettledStep(t, AbortAll);
      forall es: seq<Event>, u: Tables | AbortAll !in es && Runs(Step(t, AbortAll), es, u)
        ensures OnePerSession(u)
      {
        NoAbortIsQuiet(Step(t, AbortAll), es);
        SettledRun(Step(t, AbortAll), es, u);
      }
    }
  }

  // ---------------------------------------------------------------- the transport object

  /** What the code looks at in an inbound message. */
  datatype Message = Message(hasMethod: bool, hasId: bool, hasOutcome: bool, resultSession: Option<string>)

  predicate IsResponse(m: Message) {
    !m.hasMethod && m.hasId && m.hasOutcome
  }

  /** `Resolvable`: a pull sleeps and `pullResolve` is set. `Awake`: its promise has resolved. */
  datatype Pull = Idle | Resolvable | Awake

  class HttpStream {
    var connectionId: Option<string>
    var sessionStreamAborts: map<string, nat>
    var openSessionStreams: set<string>
    var nextAbort: nat
    var closed: bool
    var inbox: seq<Message>
    var pull: Pull
    ghost var streams: seq<Stream>
    ghost var delivered: seq<Message>
    ghost var enqueued: seq<Message>

    ghost predicate Valid()
      reads this
    {
      && openSessionStreams == sessionStreamAborts.Keys
      && nextAbort == |streams|
      && delivered == enqueued + inbox
      && (pull.Resolvable? ==> inbox == [])
    }

    ghost function Model(): Tables
      reads this
    {
      Tables(connectionId.Some?, sessionStreamAborts, streams)
    }

    constructor ()
      ensures Valid() && Model() == INITIAL && delivered == enqueued == [] && !closed
    {
      connectionId, sessionStreamAborts, openSessionStreams, nextAbort := None, map[], {}, 0;
      closed, inbox, pull, streams, delivered, enqueued := false, [], Idle, [], [], [];
    }

    method Connected(id: string)
      requires Valid()
      modifies this`connectionId
      ensures Valid() && Model() == Step(old(Model()), Connect)
    {
      connectionId := Some(id);
    }

    /** Up to the fetch. `started` says whether a fetch goes out, under which controller. */
    method EnsureSessionGetStream(sessionId: string) returns (started: Option<nat>)
      requires Valid()
      modifies this`openSessionStreams, this`sessionStreamAborts, this`nextAbort, this`streams
      ensures Valid() && Model() == Step(old(Model()), Open(sessionId))
      ensures started.Some? <==> |streams| > |old(streams)|
      ensures started.Some? ==>
                started.value == |old(streams)| && openSessionStreams == old(openSessionStreams) + {sessionId}
    {
      if connectionId.None? || sessionId in openSessionStreams {
        return None;
      }
      openSessionStreams := openSessionStreams + {sessionId};
      var abort := nextAbort;
      nextAbort := nextAbort + 1;
      sessionStreamAborts := sessionStreamAborts[sessionId := abort];
      streams := streams + [Stream(sessionId, Opening, false)];
      return Some(abort);
    }

    /** The fetch was rejected, or answered with an error status or without a body. */
    method FetchFailed(sessionId: string, abort: nat)
      requires Valid() && Opens(Model(), abort) && streams[abort].session == sessionId
      modifies this`openSessionStreams, this`sessionStreamAborts, this`streams
      ensures Valid() && Model() == Step(old(Model()), FetchFails(abort))
    {
      openSessionStreams := openSessionStreams - {sessionId};
      sessionStreamAborts := sessionStreamAborts - {sessionId};
      streams := SetPhase(streams, abort, Ended);
    }

    ghost method FetchSucceeded(abort: nat)
      requires Valid() && Opens(Model(), abort)
      modifies this`streams
      ensures Valid() && Model() == Step(old(Model()), FetchSucceeds(abort))
    {
      streams := SetPhase(streams, abort, Live);
    }

    /** The `finally` of the reader: only the entry's own stream removes it. */
    method BodyEnded(sessionId: string, abort: nat)
      requires Valid() && InPhase(Model(), abort, Live) && streams[abort].session == sessionId
      modifies this`openSessionStreams, this`sessionStreamAborts, this`streams
      ensures Valid() && Model() == Step(old(Model()), BodyEnds(abort))
    {
      if sessionId in sessionStreamAborts && sessionStreamAborts[sessionId] == abort {
        sessionStreamAborts := sessionStreamAborts - {sessionId};
        openSessionStreams := openSessionStreams - {sessionId};
      }
      streams := SetPhase(streams, abort, Ended);
    }

    method AbortAllStreams()
      requires Valid()
      modifies this`openSessionStreams, this`sessionStreamAborts, this`streams
      ensures Valid() && Model() == Step(old(Model()), AbortAll)
    {
      streams := Aborted(streams);
      sessionStreamAborts := map[];
      openSessionStreams := {};
    }

    /** A message joins the inbox and wakes a sleeping pull. */
    method Deliver(msg: Message)
      requires Valid()
      modifies this`inbox, this`pull, this`delivered
      ensures Valid() && delivered == old(delivered) + [msg]
      ensures !pull.Resolvable?
    {
      inbox := inbox + [msg];
      delivered := delivered + [msg];
      if pull.Resolvable? {
        pull := Awake;
      }
    }

    /** A response that names a session opens that session's stream first; every message is delivered. */
    method HandleInbound(msg: Message)
      requires Valid()
      modifies this
      ensures Valid() && delivered == old(delivered) + [msg] && enqueued == old(enqueued)
      ensures closed == old(closed) && connectionId == old(connectionId) && !pull.Resolvable?
      ensures Model() == if IsResponse(msg) && msg.resultSession.Some? && msg.resultSession.value != ""
                         then Step(old(Model()), Open(msg.resultSession.value)) else old(Model())
      ensures msg.hasMethod || !msg.hasId || !msg.hasOutcome || msg.resultSession.None? || msg.resultSession == Some("")
                || old(connectionId).None? || msg.resultSession.value in old(openSessionStreams) ==>
                streams == old(streams) && openSessionStreams == old(openSessionStreams)
      ensures !msg.hasMethod && msg.hasId && msg.hasOutcome && msg.resultSession.Some? && msg.resultSession != Some("")
                && old(connectionId).Some? && msg.resultSession.value !in old(openSessionStreams) ==>
                streams == old(streams) + [Stream(msg.resultSession.value, Opening, false)] &&
                openSessionStreams == old(openSessionStreams) + {msg.resultSession.value}
    {
      if IsResponse(msg) {
        match msg.resultSession
        case Some(sid) =>
          if sid != "" && sid !in openSessionStreams {
            var _ := EnsureSessionGetStream(sid);
          }
        case None =>
      }
      Deliver(msg);
    }

    /** A pull begins: it sleeps exactly when there is nothing to read. */
    method StartPull()
      requires Valid() && pull.Idle?
      modifies this`pull
      ensures Valid() && pull == if inbox == [] then Resolvable else Awake
    {
      pull := if |inbox| > 0 then Awake else Resolvable;
    }

    /** An awake pull moves the whole inbox, in order, to the reader. */
    method FinishPull() returns (ends: bool)
      requires Valid() && pull.Awake?
      modifies this`inbox, this`enqueued, this`pull
      ensures Valid() && pull.Idle? && inbox == [] && enqueued == delivered
      ensures ends == closed
    {
      while |inbox| > 0
        invariant Valid() && pull.Awake? && delivered == old(delivered)
      {
        enqueued := enqueued + [inbox[0]];
        inbox := inbox[1..];
      }
      ends := closed;
      pull := Idle;
    }

    /** The first thing `close`, `abort` and `cancel` do; they then send the delete request. */
    method BeginShutdown()
      requires Valid()
      modifies this`closed
      ensures Valid() && closed && Model() == old(Model())
    {
      closed := true;
    }

    /** What they do once that request has settled: every stream is told to stop, and a
        sleeping pull wakes. */
    method FinishShutdown()
      requires Valid()
      modifies this
      ensures Valid() && Model() == Step(old(Model()), AbortAll)
      ensures delivered == old(delivered) && enqueued == old(enqueued) && inbox == old(inbox)
      ensures !pull.Resolvable?
    {
      AbortAllStreams();
      if pull.Resolvable? {
        pull := Awake;
      }
    }
  }
}
