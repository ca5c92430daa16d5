/** Archiving chats: calls queue up on a chain of promises, and each takes a lease that
    blocks voice starts, raced against its deadline. A step is the code between two
    awaits; answers of the stores, the backend and the clock are the environment. */
module ArchiveQueue {
  import opened Wrappers

  // ---------------------------------------------------------------- one call, as a value

  const MUTATION_DEADLINE_MARGIN_MS := 3000

  datatype Policy = Confirm | Reject | Discard

  datatype Reason =
    | SessionNotFound | TargetSessionRunning | GitInspectionFailed | CleanupRequiresDiscard
    | BlockedUnsavedChanges | TimedOut | VoiceStopFailed | BackendArchiveFailed | WorkspaceCleanupFailed

  datatype Outcome = Archived(incomplete: Option<Reason>) | NotArchived(reason: Reason) | Threw

  /** What the call is waiting for. */
  datatype Phase =
    | Queued(previous: nat)
    | Initializing
    | Inspecting
    | Confirming
    | Revalidating
    | Acquiring
    | Reinitializing
    | Stopping
    | Mutating
    | CleaningUp
    | Releasing(out: Outcome)
    | Done(out: Outcome)

  datatype Lease = Unrequested | Pending | Granted | Refused
  datatype Race = Undecided | Won | Lost | Failed

  /** `promise` is what this call puts at the end of the queue. `armed`: a callback stands
      by to release the lease should it still come; `late`: that callback has run.
      `dispatched`: the mutation has been sent to the backend. `heard`: what each of the
      awaits that have settled found. */
  datatype Call = Call(target: string, policy: Policy, deadline: Option<int>, revalidates: bool, promise: nat,
                       phase: Phase, lease: Lease, race: Race, armed: bool, late: bool, releases: nat,
                       dispatched: bool, heard: map<Stage, Heard>)

  /** The awaits, in their order. */
  datatype Stage = AtQueue | AtInit | AtInspect | AtConfirm | AtRevalidate | AtRace | AtReinit | AtStop | AtMutate
                 | AtCleanUp | AtRelease

  /** `owns`: the target owned the active voice then. */
  datatype Heard = Heard(r: Reading, owns: bool)

  /** What the code may find when an await settles: `failed` is a rejection, `now` and
      `later` are two readings of the clock. */
  datatype Reading = Reading(failed: bool, found: bool, hasTargets: bool, discards: bool, confirmed: bool, valid: bool,
                             busy: bool, now: int, later: int, stillOwns: bool, missing: bool,
                                 interrupted: Option<Reason>)

  function NewCall(target: string, policy: Policy, deadline: Option<int>, revalidates: bool, previous: nat,
                   promise: nat): Call {
    Call(target, policy, deadline, revalidates, promise, Queued(previous), Unrequested, Undecided, false, false, 0,
        false, map[])
  }

  function Interruption(c: Call, r: Reading): Option<Reason> {
    if c.deadline.Some? && r.now >= c.deadline.value - MUTATION_DEADLINE_MARGIN_MS then Some(TimedOut)
    else if c.policy.Confirm? then None
    else if r.busy then Some(TargetSessionRunning) else None
  }

  function Leave(c: Call, out: Outcome): Call {
    c.(phase := Done(out))
  }

  function GiveBack(c: Call, out: Outcome): Call {
    c.(phase := Releasing(out), releases := c.releases + 1)
  }

  /** Ask for the lease; out of time already, the answer is settled and the late release armed. */
  function Request(c: Call, r: Reading): Call {
    var d := c.(phase := Acquiring, lease := Pending);
    if c.deadline.Some? &&
        c.deadline.value - MUTATION_DEADLINE_MARGIN_MS - r.later <= 0 then d.(race := Lost, armed := true) else d
  }

  function Precheck(c: Call, r: Reading): Call {
    match Interruption(c, r)
    case Some(reason) => Leave(c, NotArchived(reason))
    case None => if c.revalidates then c.(phase := Revalidating) else Request(c, r)
  }

  function Decide(c: Call, discards: bool, r: Reading): Call {
    if discards && c.policy.Reject? then Leave(c, NotArchived(CleanupRequiresDiscard))
    else if discards && c.policy.Confirm? then c.(phase := Confirming)
    else Precheck(c, r)
  }

  function Mutate(c: Call, r: Reading): Call {
    match Interruption(c, r)
    case Some(reason) => GiveBack(c, NotArchived(reason))
    case None => c.(phase := Mutating, dispatched := true)
  }

  /** Before the lease is asked for. */
  function Prepare(c: Call, owns: bool, r: Reading): Call {
    match c.phase
    case Queued(_) => if r.found then c.(phase := Initializing) else Leave(c, NotArchived(SessionNotFound))
    case Initializing =>
      if r.failed then Leave(c, Threw)
      else if !c.policy.Confirm? && owns then Leave(c, NotArchived(TargetSessionRunning))
      else if r.hasTargets then c.(phase := Inspecting)
      else Decide(c, false, r)
    case Inspecting =>
      if r.failed then Leave(c, NotArchived(GitInspectionFailed)) else Decide(c, r.discards && !c.revalidates, r)
    case Confirming =>
      if r.failed then Leave(c, Threw)
      else if !r.confirmed then Leave(c, NotArchived(BlockedUnsavedChanges)) else Precheck(c, r)
    case Revalidating =>
      if r.failed then Leave(c, Threw)
      else if !r.valid then Leave(c, NotArchived(BlockedUnsavedChanges)) else Request(c, r)
    case _ => c
  }

  /** From the race's end to the call's. */
  function Perform(c: Call, owns: bool, r: Reading): Call {
    match c.phase
    case Acquiring =>
      (match c.race
       case Won => (match Interruption(c, r)
                    case Some(reason) => GiveBack(c, NotArchived(reason))
                    case None => c.(phase := Reinitializing))
       case Lost => Leave(c.(armed := true), NotArchived(TimedOut))
       case _ => Leave(c, Threw))
    case Reinitializing =>
      if r.failed then GiveBack(c, Threw)
      else if !c.policy.Confirm? && owns then GiveBack(c, NotArchived(TargetSessionRunning))
      else if owns then c.(phase := Stopping)
      else Mutate(c, r)
    case Stopping => if r.failed || r.stillOwns || owns then GiveBack(c, NotArchived(VoiceStopFailed)) else Mutate(c, r)
    case Mutating =>
      if r.failed then GiveBack(c, NotArchived(if r.missing then SessionNotFound else BackendArchiveFailed))
      else c.(phase := CleaningUp)
    case CleaningUp =>
        GiveBack(c, Archived(if r.failed then Some(r.interrupted.GetOr(WorkspaceCleanupFailed)) else None))
    case Releasing(out) => Leave(c, out)
    case _ => c
  }

  predicate BeforeLease(p: Phase) {
    p.Queued? || p.Initializing? || p.Inspecting? || p.Confirming? || p.Revalidating?
  }

  function StageOf(p: Phase): Stage {
    match p
    case Queued(_) => AtQueue
    case Initializing => AtInit
    case Inspecting => AtInspect
    case Confirming => AtConfirm
    case Revalidating => AtRevalidate
    case Acquiring => AtRace
    case Reinitializing => AtReinit
    case Stopping => AtStop
    case Mutating => AtMutate
    case CleaningUp => AtCleanUp
    case _ => AtRelease
  }

  function Hear(c: Call, owns: bool, r: Reading): Call {
    c.(heard := c.heard[StageOf(c.phase) := Heard(r, owns)])
  }

  function Advance(c: Call, owns: bool, r: Reading): Call {
    if BeforeLease(c.phase) then Prepare(Hear(c, owns, r), owns, r) else Perform(Hear(c, owns, r), owns, r)
  }

  // ---------------------------------------------------------------- all calls

  /** `voice` is the session that owns the active voice, if any. */
  datatype Shell = Shell(calls: seq<Call>, tail: nat, resolved: set<nat>, voice: Option<string>)

  datatype Event =
    | Archive(target: string, policy: Policy, deadline: Option<int>, revalidates: bool)
    | Resume(i: nat, r: Reading)
    | Grant(i: nat)
    | Refuse(i: nat)
    | Expire(i: nat)
    | LateRelease(i: nat)
    | VoiceStarts(session: string)
    | VoiceStops

  const INITIAL := Shell([], 0, {0}, None)

  predicate Holds(c: Call) {
    c.lease.Granted? && c.releases == 0
  }

  predicate Resumable(c: Call, resolved: set<nat>) {
    match c.phase
    case Queued(previous) => previous in resolved
    case Acquiring => !c.race.Undecided?
    case Done(_) => false
    case _ => true
  }

  /** A granted lease stops new voice starts for its session: that is what it is for. */
  predicate Enabled(s: Shell, e: Event) {
    match e
    case Resume(i, _) => i < |s.calls| && Resumable(s.calls[i], s.resolved)
    case Grant(i) => i < |s.calls| && s.calls[i].lease.Pending?
    case Refuse(i) => i < |s.calls| && s.calls[i].lease.Pending?
    case Expire(i) => i < |s.calls| && s.calls[i].phase.Acquiring? && s.calls[i].deadline.Some? &&
        s.calls[i].race.Undecided?
    case LateRelease(i) => i < |s.calls| && s.calls[i].armed && s.calls[i].lease.Granted? && !s.calls[i].late
    case VoiceStarts(session) => forall c :: c in s.calls && Holds(c) ==> c.target != session
    case _ => true
  }

  function Settle(c: Call, granted: bool): Call {
    c.(lease := if granted then Granted else Refused,
       race := if c.race.Undecided? then (if granted then Won else Failed) else c.race)
  }

  function StepCall(s: Shell, e: Event, c: Call): Call {
    match e
    case Resume(_, r) => Advance(c, s.voice == Some(c.target), r)
    case Grant(_) => Settle(c, true)
    case Refuse(_) => Settle(c, false)
    case Expire(_) => c.(race := Lost)
    case LateRelease(_) => c.(late := true, releases := c.releases + 1)
    case _ => c
  }

  predicate OfCall(e: Event) {
    e.Resume? || e.Grant? || e.Refuse? || e.Expire? || e.LateRelease?
  }

  function Step(s: Shell, e: Event): Shell
    requires Enabled(s, e)
  {
    match e
    case Archive(target, policy, deadline, revalidates) =>
      s.(calls := s.calls + [NewCall(target, policy, deadline, revalidates, s.tail, |s.calls| + 1)],
          tail := |s.calls| + 1)
    case VoiceStarts(session) => s.(voice := Some(session))
    case VoiceStops => s.(voice := None)
    case _ => Put(s, e.i, StepCall(s, e, s.calls[e.i]))
  }

  /** A call that is done has resolved its promise, whichever way it came to its end. */
  function Put(s: Shell, i: nat, c: Call): Shell
    requires i < |s.calls|
  {
    s.(calls := s.calls[i := c], resolved := if c.phase.Done? then s.resolved + {c.promise} else s.resolved)
  }

  /** `s` followed by the events, in order; each is enabled in its turn. */
  ghost predicate Runs(s: Shell, es: seq<Event>, t: Shell)
    decreases |es|
  {
    if es == [] then s == t else Enabled(s, es[0]) && Runs(Step(s, es[0]), es[1..], t)
  }

  // ---------------------------------------------------------------- invariants of one call

  predicate HasLease(p: Phase) {
    p.Reinitializing? || p.Stopping? || p.Mutating? || p.CleaningUp?
  }

  /** Where the lease is, phase by phase. */
  predicate LeaseIsTracked(c: Call) {
    && (c.lease.Unrequested? ==>
        c.race.Undecided? && !c.armed && !c.late && c.releases == 0 && (BeforeLease(c.phase) || c.phase.Done?))
    && (BeforeLease(c.phase) ==> c.lease.Unrequested?)
    && (c.race.Won? ==> c.lease.Granted? && !c.armed)
    && (c.race.Failed? ==> c.lease.Refused? && !c.armed && (c.phase.Acquiring? || c.phase.Done?))
    && (c.race.Lost? ==> c.phase.Acquiring? || (c.phase.Done? && c.armed))
    && (c.race.Undecided? && !c.lease.Unrequested? ==> c.lease.Pending? && c.phase.Acquiring?)
    && (c.armed ==> c.race.Lost?)
    && (c.late ==> c.armed && c.lease.Granted?)
    && (HasLease(c.phase) || c.phase.Releasing? ==> c.race.Won?)
    && ReportIsHonest(c)
    && c.releases == (if c.late || (c.race.Won? && (c.phase.Releasing? || c.phase.Done?)) then 1 else 0)
  }

  /** No call reports success without having dispatched its mutation, and only a failure of
      the mutation itself leaves behind one that was dispatched. */
  predicate ReportIsHonest(c: Call) {
    match c.phase
    case Mutating => c.dispatched
    case CleaningUp => c.dispatched
    case Releasing(out) => OutcomeFits(out, c.dispatched)
    case Done(out) => OutcomeFits(out, c.dispatched)
    case _ => !c.dispatched
  }

  predicate OutcomeFits(out: Outcome, dispatched: bool) {
    match out
    case Archived(_) => dispatched
    case NotArchived(SessionNotFound) => true
    case NotArchived(reason) => dispatched == reason.BackendArchiveFailed?
    case Threw => !dispatched
  }

  /** From its dispatch to the lease's release, the target of a mutation has no voice. */
  predicate TargetIsQuiet(c: Call, voice: Option<string>) {
    c.phase.Mutating? || c.phase.CleaningUp? ==> voice != Some(c.target)
  }

  lemma PrepareTracks(c: Call, owns: bool, r: Reading)
    requires LeaseIsTracked(c) && BeforeLease(c.phase)
    ensures var d := Prepare(c, owns, r);
            && LeaseIsTracked(d) && !HasLease(d.phase) && !d.phase.Queued? && d.promise == c.promise &&
                d.target == c.target
            && Rank(d) < Rank(c)
  {
  }

  lemma PerformTracks(c: Call, owns: bool, r: Reading)
    requires LeaseIsTracked(c) && !BeforeLease(c.phase) && !c.phase.Done?
    requires c.phase.Acquiring? ==> !c.race.Undecided?
    ensures var d := Perform(c, owns, r);
            && LeaseIsTracked(d) && !d.phase.Queued? && d.promise == c.promise && d.target == c.target
            && Rank(d) < Rank(c)
            && (d.phase.Mutating? ==> !owns)
            && (d.phase.CleaningUp? ==> c.phase.Mutating?)
  {
  }

  /** What is left of a call: at most this many steps. */
  function Rank(c: Call): nat {
    (match c.phase
     case Queued(_) => 11 case Initializing => 10 case Inspecting => 9 case Confirming => 8 case Revalidating => 7
     case Acquiring => 6 case Reinitializing => 5 case Stopping => 4 case Mutating => 3 case CleaningUp => 2
     case Releasing(_) => 1 case Done(_) => 0)
    + (match c.lease case Unrequested => 2 case Pending => 1 case _ => 0)
    + (if c.race.Undecided? then 1 else 0)
    + (if c.late then 0 else 1)
  }

  lemma HearingMovesNothing(c: Call, owns: bool, r: Reading)
    ensures var h := Hear(c, owns, r);
            LeaseIsTracked(h) == LeaseIsTracked(c) && Rank(h) == Rank(c) && h.phase == c.phase
  {
  }

  lemma StepCallTracks(s: Shell, e: Event)
    requires OfCall(e) && Enabled(s, e) && LeaseIsTracked(s.calls[e.i]) && TargetIsQuiet(s.calls[e.i], s.voice)
    ensures var c, d := s.calls[e.i], StepCall(s, e, s.calls[e.i]);
            && LeaseIsTracked(d) && TargetIsQuiet(d, s.voice) && d.promise == c.promise && d.target == c.target
            && Rank(d) < Rank(c)
            && (d.phase.Queued? ==> d.phase == c.phase && !e.Resume?)
            && (c.phase.Done? ==> d.phase == c.phase)
            && (!e.Resume? ==> d.phase == c.phase)
  {
    var c := s.calls[e.i];
    if e.Resume? {
      HearingMovesNothing(c, s.voice == Some(c.target), e.r);
      if BeforeLease(c.phase) {
        PrepareTracks(Hear(c, s.voice == Some(c.target), e.r), s.voice == Some(c.target), e.r);
      } else {
        PerformTracks(Hear(c, s.voice == Some(c.target), e.r), s.voice == Some(c.target), e.r);
      }
    }
  }

  // ---------------------------------------------------------------- invariants of the queue

  predicate Finished(s: Shell, promise: nat) {
    1 <= promise <= |s.calls| && s.calls[promise - 1].phase.Done?
  }

  /** Every call waits for the one before it, and exactly the finished ones have resolved. */
  ghost predicate InLine(s: Shell) {
    && s.tail == |s.calls|
    && (forall i :: 0 <= i < |s.calls| ==>
        s.calls[i].promise == i + 1 && (s.calls[i].phase.Queued? ==> s.calls[i].phase.previous == i))
    && (forall k: nat :: k in s.resolved <==> k == 0 || Finished(s, k))
    && (forall i, j :: 0 <= i < j < |s.calls| && !s.calls[j].phase.Queued? ==> s.calls[i].phase.Done?)
  }

  ghost predicate AllTracked(s: Shell) {
    forall i :: 0 <= i < |s.calls| ==> LeaseIsTracked(s.calls[i]) && TargetIsQuiet(s.calls[i], s.voice)
  }

  lemma AllTrackedStep(s: Shell, e: Event)
    requires AllTracked(s) && Enabled(s, e)
    ensures AllTracked(Step(s, e))
  {
    var t := Step(s, e);
    forall i | 0 <= i < |t.calls| ensures LeaseIsTracked(t.calls[i]) && TargetIsQuiet(t.calls[i], t.voice) {
      if i < |s.calls| {
        assert LeaseIsTracked(s.calls[i]) && TargetIsQuiet(s.calls[i], s.voice);
        assert s.calls[i] in s.calls;
        if OfCall(e) && e.i == i {
          StepCallTracks(s, e);
        }
      }
    }
  }

  lemma ResumedWasFirst(s: Shell, i: nat, r: Reading)
    requires InLine(s) && Enabled(s, Resume(i, r))
    ensures forall j :: 0 <= j < i ==> s.calls[j].phase.Done?
    ensures forall j :: i < j < |s.calls| ==> s.calls[j].phase.Queued?
  {
    if s.calls[i].phase.Queued? && i > 0 {
      assert Finished(s, i);
      assert !s.calls[i - 1].phase.Queued?;
    }
  }

  lemma InLineStep(s: Shell, e: Event)
    requires AllTracked(s) && InLine(s) && Enabled(s, e)
    ensures InLine(Step(s, e))
  {
    var t := Step(s, e);
    if OfCall(e) {
      assert LeaseIsTracked(s.calls[e.i]) && TargetIsQuiet(s.calls[e.i], s.voice);
      StepCallTracks(s, e);
      if e.Resume? {
        ResumedWasFirst(s, e.i, e.r);
      }
      ResolvedStep(s, e);
    } else if e.Archive? {
      forall k: nat ensures Finished(t, k) <==> Finished(s, k) {
        assert k <= |s.calls| && k > 0 ==> t.calls[k - 1] == s.calls[k - 1];
      }
    } else {
      assert forall k: nat :: Finished(t, k) <==> Finished(s, k);
    }
  }

  lemma ResolvedStep(s: Shell, e: Event)
    requires InLine(s) && Enabled(s, e) && OfCall(e)
    requires var c, d := s.calls[e.i], StepCall(s, e, s.calls[e.i]);
             d.promise == c.promise && (c.phase.Done? ==> d.phase == c.phase)
    ensures forall k: nat :: k in Step(s, e).resolved <==> k == 0 || Finished(Step(s, e), k)
  {
    var t := Step(s, e);
    forall k: nat ensures k in t.resolved <==> k == 0 || Finished(t, k) {
      if k != e.i + 1 {
        assert Finished(t, k) <==> Finished(s, k);
      }
    }
  }

  lemma {:induction false} RunsKeepOrder(s: Shell, es: seq<Event>, t: Shell)
    requires AllTracked(s) && InLine(s) && Runs(s, es, t)
    ensures AllTracked(t) && InLine(t)
    decreases |es|
  {
    if es != [] {
      AllTrackedStep(s, es[0]);
      InLineStep(s, es[0]);
      RunsKeepOrder(Step(s, es[0]), es[1..], t);
    }
  }

  lemma ReachableIsSound(es: seq<Event>, s: Shell)
    requires Runs(INITIAL, es, s)
    ensures AllTracked(s) && InLine(s)
  {
    assert forall k: nat :: !Finished(INITIAL, k);
    RunsKeepOrder(INITIAL, es, s);
  }

  // ---------------------------------------------------------------- what a call's story comes to

  /** By what it has heard, a call waits for something more, or its outcome is settled. */
  datatype Told = Awaits(stage: Stage) | Ends(out: Outcome)

  predicate Rejected(c: Call, stage: Stage) {
    stage in c.heard && c.heard[stage].r.failed
  }

  predicate Owned(c: Call, stage: Stage) {
    stage in c.heard && c.heard[stage].owns
  }

  predicate HasTargets(c: Call) {
    AtInit in c.heard && c.heard[AtInit].r.hasTargets
  }

  /** Inspection found files that would be lost, and they are meant to be. */
  predicate WouldDiscard(c: Call) {
    HasTargets(c) && AtInspect in c.heard && c.heard[AtInspect].r.discards && !c.revalidates
  }

  predicate AsksUser(c: Call) {
    WouldDiscard(c) && c.policy.Confirm?
  }

  /** Why the call had to stop at what it heard then: it was out of time, or, if no user is
      behind it, the session was busy. */
  predicate OutOfTime(c: Call, stage: Stage) {
    stage in c.heard && c.deadline.Some? && c.heard[stage].r.now >= c.deadline.value - 3000
  }

  predicate Busy(c: Call, stage: Stage) {
    stage in c.heard && !c.policy.Confirm? && c.heard[stage].r.busy
  }

  function Stopped(c: Call, stage: Stage, otherwise: Told): Told {
    if OutOfTime(c, stage) then Ends(NotArchived(TimedOut))
    else if Busy(c, stage) then Ends(NotArchived(TargetSessionRunning))
    else otherwise
  }

  /** Where the check before the lease is made. */
  function CheckStage(c: Call): Stage {
    if AsksUser(c) then AtConfirm else if HasTargets(c) then AtInspect else AtInit
  }

  function BeforeCheck(c: Call): Told {
    if AtQueue !in c.heard then Awaits(AtQueue)
    else if !c.heard[AtQueue].r.found then Ends(NotArchived(SessionNotFound))
    else if AtInit !in c.heard then Awaits(AtInit)
    else if Rejected(c, AtInit) then Ends(Threw)
    else if Owned(c, AtInit) && !c.policy.Confirm? then Ends(NotArchived(TargetSessionRunning))
    else if HasTargets(c) && AtInspect !in c.heard then Awaits(AtInspect)
    else if HasTargets(c) && Rejected(c, AtInspect) then Ends(NotArchived(GitInspectionFailed))
    else if WouldDiscard(c) && c.policy.Reject? then Ends(NotArchived(CleanupRequiresDiscard))
    else if AsksUser(c) && AtConfirm !in c.heard then Awaits(AtConfirm)
    else if AsksUser(c) && Rejected(c, AtConfirm) then Ends(Threw)
    else if AsksUser(c) && !c.heard[AtConfirm].r.confirmed then Ends(NotArchived(BlockedUnsavedChanges))
    else Stopped(c, CheckStage(c), Awaits(AtRevalidate))
  }

  function BeforeRace(c: Call): Told {
    if BeforeCheck(c) != Awaits(AtRevalidate) || (c.revalidates && AtRevalidate !in c.heard) then BeforeCheck(c)
    else if c.revalidates && Rejected(c, AtRevalidate) then Ends(Threw)
    else if c.revalidates && !c.heard[AtRevalidate].r.valid then Ends(NotArchived(BlockedUnsavedChanges))
    else Awaits(AtRace)
  }

  function BeforeMutation(c: Call): Told {
    if BeforeRace(c) != Awaits(AtRace) || AtRace !in c.heard then BeforeRace(c)
    else if c.race.Lost? then Ends(NotArchived(TimedOut))
    else if !c.race.Won? then Ends(Threw)
    else if OutOfTime(c, AtRace) || Busy(c, AtRace) then Stopped(c, AtRace, Awaits(AtReinit))
    else if AtReinit !in c.heard then Awaits(AtReinit)
    else if Rejected(c, AtReinit) then Ends(Threw)
    else if !Owned(c, AtReinit) then Stopped(c, AtReinit, Awaits(AtMutate))
    else if !c.policy.Confirm? then Ends(NotArchived(TargetSessionRunning))
    else if AtStop !in c.heard then Awaits(AtStop)
    else if Rejected(c, AtStop) || c.heard[AtStop].r.stillOwns || Owned(c, AtStop) then
      Ends(NotArchived(VoiceStopFailed))
    else Stopped(c, AtStop, Awaits(AtMutate))
  }

  function Story(c: Call): Told {
    if BeforeMutation(c) != Awaits(AtMutate) || AtMutate !in c.heard then BeforeMutation(c)
    else if Rejected(c, AtMutate) then
      Ends(NotArchived(if c.heard[AtMutate].r.missing then SessionNotFound else BackendArchiveFailed))
    else if AtCleanUp !in c.heard then Awaits(AtCleanUp)
    else if !Rejected(c, AtCleanUp) then Ends(Archived(None))
    else
      match c.heard[AtCleanUp].r.interrupted
      case Some(reason) => Ends(Archived(Some(reason)))
      case None => Ends(Archived(Some(WorkspaceCleanupFailed)))
  }

  /** The call is where its story has it. */
  predicate IsWhereTold(c: Call) {
    match c.phase
    case Releasing(out) => Story(c) == Ends(out)
    case Done(out) => Story(c) == Ends(out)
    case p => Story(c) == Awaits(StageOf(p))
  }

  function Order(stage: Stage): nat {
    match stage
    case AtQueue => 0 case AtInit => 1 case AtInspect => 2 case AtConfirm => 3 case AtRevalidate => 4 case AtRace => 5
    case AtReinit => 6 case AtStop => 7 case AtMutate => 8 case AtCleanUp => 9 case AtRelease => 10
  }

  /** Nothing is heard ahead of its time, and nothing of a race that is still open. */
  predicate HeardInOrder(c: Call) {
    && (forall stage :: stage in c.heard && !c.phase.Done? ==> Order(stage) < Order(StageOf(c.phase)))
    && (AtRace in c.heard ==> !c.race.Undecided?)
  }

  /** The mutation is sent exactly when the story has come to it. */
  predicate SentAsTold(c: Call) {
    c.dispatched <==> BeforeMutation(c) == Awaits(AtMutate)
  }

  /** The same call with the same story up to stage number `k`. */
  ghost predicate Agrees(c: Call, d: Call, k: nat) {
    && c.policy == d.policy && c.deadline == d.deadline && c.revalidates == d.revalidates
    && (forall stage :: Order(stage) < k ==> (stage in c.heard <==> stage in d.heard))
    && (forall stage :: Order(stage) < k && stage in c.heard ==> c.heard[stage] == d.heard[stage])
  }

  lemma SameBeforeCheck(c: Call, d: Call)
    requires Agrees(c, d, 4)
    ensures BeforeCheck(c) == BeforeCheck(d)
  {
    assert Order(AtQueue) < 4 && Order(AtInit) < 4 && Order(AtInspect) < 4 && Order(AtConfirm) < 4;
  }

  lemma SameBeforeRace(c: Call, d: Call)
    requires Agrees(c, d, 5)
    ensures BeforeCheck(c) == BeforeCheck(d) && BeforeRace(c) == BeforeRace(d)
  {
    SameBeforeCheck(c, d);
    assert Order(AtRevalidate) < 5;
  }

  lemma SameBeforeMutation(c: Call, d: Call)
    requires Agrees(c, d, 8) && c.race == d.race
    ensures BeforeRace(c) == BeforeRace(d) && BeforeMutation(c) == BeforeMutation(d)
  {
    SameBeforeRace(c, d);
    assert Order(AtRace) < 8 && Order(AtReinit) < 8 && Order(AtStop) < 8;
  }

  ghost predicate SameCall(c: Call, d: Call) {
    c.policy == d.policy && c.deadline == d.deadline && c.revalidates == d.revalidates && c.heard == d.heard
  }

  /** `d` is the same call after `c`, further on than stage number `k` or done. */
  ghost predicate MovesOn(c: Call, d: Call, k: nat) {
    SameCall(c, d) && (d.phase.Done? || k < Order(StageOf(d.phase)))
  }

  lemma LeaveMovesOn(c: Call, out: Outcome, k: nat)
    ensures MovesOn(c, Leave(c, out), k) && Leave(c, out).dispatched == c.dispatched && Leave(c, out).race == c.race
  {
  }

  lemma PrecheckMovesOn(c: Call, r: Reading)
    ensures MovesOn(c, Precheck(c, r), 3) && Precheck(c, r).dispatched == c.dispatched
  {
    match Interruption(c, r)
    case Some(reason) => LeaveMovesOn(c, NotArchived(reason), 3);
    case None =>
  }

  lemma DecideMovesOn(c: Call, discards: bool, r: Reading)
    ensures MovesOn(c, Decide(c, discards, r), 2) && Decide(c, discards, r).dispatched == c.dispatched
  {
    PrecheckMovesOn(c, r);
    LeaveMovesOn(c, NotArchived(CleanupRequiresDiscard), 2);
  }

  lemma QueuedMovesOn(c: Call, owns: bool, r: Reading)
    requires c.phase.Queued?
    ensures var d := Prepare(c, owns, r); MovesOn(c, d, Order(StageOf(c.phase))) && d.dispatched == c.dispatched
  {
  }

  lemma InitializingMovesOn(c: Call, owns: bool, r: Reading)
    requires c.phase.Initializing?
    ensures var d := Prepare(c, owns, r); MovesOn(c, d, Order(StageOf(c.phase))) && d.dispatched == c.dispatched
  {
    DecideMovesOn(c, false, r);
  }

  lemma InspectingMovesOn(c: Call, owns: bool, r: Reading)
    requires c.phase.Inspecting?
    ensures var d := Prepare(c, owns, r); MovesOn(c, d, Order(StageOf(c.phase))) && d.dispatched == c.dispatched
  {
    DecideMovesOn(c, r.discards && !c.revalidates, r);
  }

  lemma ConfirmingMovesOn(c: Call, owns: bool, r: Reading)
    requires c.phase.Confirming?
    ensures var d := Prepare(c, owns, r); MovesOn(c, d, Order(StageOf(c.phase))) && d.dispatched == c.dispatched
  {
    PrecheckMovesOn(c, r);
  }

  lemma RevalidatingMovesOn(c: Call, owns: bool, r: Reading)
    requires c.phase.Revalidating?
    ensures var d := Prepare(c, owns, r); MovesOn(c, d, Order(StageOf(c.phase))) && d.dispatched == c.dispatched
  {
  }

  lemma PrepareMovesOn(c: Call, owns: bool, r: Reading)
    requires BeforeLease(c.phase)
    ensures var d := Prepare(c, owns, r); MovesOn(c, d, Order(StageOf(c.phase))) && d.dispatched == c.dispatched
  {
    match c.phase
    case Queued(_) => QueuedMovesOn(c, owns, r);
    case Initializing => InitializingMovesOn(c, owns, r);
    case Inspecting => InspectingMovesOn(c, owns, r);
    case Confirming => ConfirmingMovesOn(c, owns, r);
    case Revalidating => RevalidatingMovesOn(c, owns, r);
    case _ =>
  }

  lemma MutateMovesOn(c: Call, r: Reading)
    ensures MovesOn(c, Mutate(c, r), 7) && Mutate(c, r).race == c.race
  {
  }

  lemma AcquiringMovesOn(c: Call, owns: bool, r: Reading)
    requires c.phase.Acquiring?
    ensures var d := Perform(c, owns, r); MovesOn(c, d, Order(StageOf(c.phase))) && d.race == c.race
  {
  }

  lemma ReinitializingMovesOn(c: Call, owns: bool, r: Reading)
    requires c.phase.Reinitializing?
    ensures var d := Perform(c, owns, r); MovesOn(c, d, Order(StageOf(c.phase))) && d.race == c.race
  {
    MutateMovesOn(c, r);
  }

  lemma StoppingMovesOn(c: Call, owns: bool, r: Reading)
    requires c.phase.Stopping?
    ensures var d := Perform(c, owns, r); MovesOn(c, d, Order(StageOf(c.phase))) && d.race == c.race
  {
    MutateMovesOn(c, r);
  }

  lemma MutatingMovesOn(c: Call, owns: bool, r: Reading)
    requires c.phase.Mutating?
    ensures var d := Perform(c, owns, r); MovesOn(c, d, Order(StageOf(c.phase))) && d.race == c.race
  {
  }

  lemma CleaningUpMovesOn(c: Call, owns: bool, r: Reading)
    requires c.phase.CleaningUp?
    ensures var d := Perform(c, owns, r); MovesOn(c, d, Order(StageOf(c.phase))) && d.race == c.race
  {
  }

  lemma ReleasingMovesOn(c: Call, owns: bool, r: Reading)
    requires c.phase.Releasing?
    ensures var d := Perform(c, owns, r); MovesOn(c, d, Order(StageOf(c.phase))) && d.race == c.race
  {
  }

  lemma PerformMovesOn(c: Call, owns: bool, r: Reading)
    requires !BeforeLease(c.phase) && !c.phase.Done?
    ensures var d := Perform(c, owns, r); MovesOn(c, d, Order(StageOf(c.phase))) && d.race == c.race
  {
    match c.phase
    case Acquiring => AcquiringMovesOn(c, owns, r);
    case Reinitializing => ReinitializingMovesOn(c, owns, r);
    case Stopping => StoppingMovesOn(c, owns, r);
    case Mutating => MutatingMovesOn(c, owns, r);
    case CleaningUp => CleaningUpMovesOn(c, owns, r);
    case Releasing(_) => ReleasingMovesOn(c, owns, r);
    case _ =>
  }

  /** Resuming adds what was heard and changes nothing that was heard before. */
  lemma HearingAgrees(c: Call, owns: bool, r: Reading)
    requires HeardInOrder(c) && !c.phase.Done?
    ensures StageOf(c.phase) !in c.heard
    ensures Agrees(c, Hear(c, owns, r), Order(StageOf(c.phase)))
  {
  }

  /** While the story has not come to the race, it is told by its beginning alone. */
  lemma EarlyStory(c: Call)
    ensures BeforeCheck(c) != Awaits(AtRevalidate) ==> Story(c) == BeforeCheck(c)
    ensures BeforeRace(c) != Awaits(AtRace) ==> Story(c) == BeforeRace(c)
    ensures BeforeRace(c) == Awaits(AtRace) && AtRace !in c.heard ==> Story(c) == Awaits(AtRace)
  {
  }

  lemma StoriesOfSame(c: Call, d: Call)
    requires SameCall(c, d)
    ensures BeforeCheck(c) == BeforeCheck(d) && BeforeRace(c) == BeforeRace(d)
    ensures c.race == d.race ==> BeforeMutation(c) == BeforeMutation(d) && Story(c) == Story(d)
  {
    SameBeforeRace(c, d);
    if c.race == d.race {
      SameBeforeMutation(c, d);
    }
  }

  /** A call is stopped exactly when it is out of time or, with no user behind it, busy. */
  lemma InterruptionTold(c: Call, stage: Stage, otherwise: Told)
    requires stage in c.heard
    ensures Stopped(c, stage, otherwise) ==
            match Interruption(c, c.heard[stage].r)
            case Some(reason) => Ends(NotArchived(reason))
            case None => otherwise
  {
  }

  /** Nothing is heard from the lease on. */
  predicate Unleased(c: Call) {
    AtRace !in c.heard && AtReinit !in c.heard && AtStop !in c.heard && AtMutate !in c.heard && AtCleanUp !in c.heard
  }

  lemma LeaveTells(h: Call, out: Outcome)
    requires BeforeRace(h) == Ends(out)
    ensures IsWhereTold(Leave(h, out))
  {
    StoriesOfSame(h, Leave(h, out));
    EarlyStory(Leave(h, out));
  }

  lemma WaitTells(h: Call, p: Phase)
    requires BeforeRace(h) == Awaits(StageOf(p)) && !p.Acquiring? && !p.Releasing? && !p.Done?
    ensures IsWhereTold(h.(phase := p))
  {
    StoriesOfSame(h, h.(phase := p));
    EarlyStory(h.(phase := p));
  }

  /** The lease is given up at once, its late release armed, exactly when no time is left. */
  lemma OutOfTimeAtOnce(c: Call, r: Reading)
    ensures var d := Request(c, r);
            d.phase.Acquiring? && d.lease.Pending? &&
            (d.race.Lost? && d.armed <==>
               (c.deadline.Some? && c.deadline.value - 3000 - r.later <= 0) || (c.race.Lost? && c.armed))
  {
  }

  lemma RequestTells(h: Call, r: Reading)
    requires BeforeRace(h) == Awaits(AtRace) && Unleased(h)
    ensures IsWhereTold(Request(h, r))
  {
    StoriesOfSame(h, Request(h, r));
    EarlyStory(Request(h, r));
  }

  lemma PrecheckTells(h: Call, stage: Stage, r: Reading)
    requires stage in h.heard && h.heard[stage].r == r && Unleased(h)
    requires AtRevalidate !in h.heard
    requires BeforeCheck(h) == Stopped(h, stage, Awaits(AtRevalidate))
    ensures IsWhereTold(Precheck(h, r))
  {
    InterruptionTold(h, stage, Awaits(AtRevalidate));
    match Interruption(h, r)
    case Some(reason) => LeaveTells(h, NotArchived(reason));
    case None => if h.revalidates { WaitTells(h, Revalidating); } else { RequestTells(h, r); }
  }

  lemma DecideTells(h: Call, stage: Stage, discards: bool, r: Reading)
    requires stage in h.heard && h.heard[stage].r == r && Unleased(h)
    requires AtRevalidate !in h.heard && AtConfirm !in h.heard
    requires discards == WouldDiscard(h) && (!AsksUser(h) ==> CheckStage(h) == stage)
    requires BeforeCheck(h) == (if discards && h.policy.Reject? then Ends(NotArchived(CleanupRequiresDiscard))
                                else if AsksUser(h) then Awaits(AtConfirm) else Stopped(h, stage, Awaits(AtRevalidate)))
    ensures IsWhereTold(Decide(h, discards, r))
  {
    if discards && h.policy.Reject? {
      LeaveTells(h, NotArchived(CleanupRequiresDiscard));
    } else if discards && h.policy.Confirm? {
      WaitTells(h, Confirming);
    } else {
      PrecheckTells(h, stage, r);
    }
  }

  ghost predicate Ready(c: Call) {
    IsWhereTold(c) && HeardInOrder(c)
  }

  lemma NothingLater(c: Call, owns: bool, r: Reading)
    requires HeardInOrder(c) && BeforeLease(c.phase)
    ensures Unleased(Hear(c, owns, r))
    ensures !c.phase.Revalidating? ==> AtRevalidate !in Hear(c, owns, r).heard
    ensures !c.phase.Revalidating? && !c.phase.Confirming? ==> AtConfirm !in Hear(c, owns, r).heard
    ensures c.phase.Queued? || c.phase.Initializing? ==> AtInspect !in Hear(c, owns, r).heard
    ensures c.phase.Queued? ==> AtInit !in Hear(c, owns, r).heard
  {
    assert AtRace !in c.heard && AtReinit !in c.heard && AtStop !in c.heard;
    assert AtMutate !in c.heard && AtCleanUp !in c.heard;
  }

  lemma WaitingMeans(c: Call)
    requires IsWhereTold(c) && BeforeLease(c.phase)
    ensures BeforeRace(c) == Awaits(StageOf(c.phase))
    ensures !c.phase.Revalidating? ==> BeforeCheck(c) == Awaits(StageOf(c.phase))
    ensures c.phase.Revalidating? ==> BeforeCheck(c) == Awaits(AtRevalidate) && c.revalidates
  {
    EarlyStory(c);
  }

  lemma QueuedTells(c: Call, owns: bool, r: Reading)
    requires Ready(c) && c.phase.Queued?
    ensures IsWhereTold(Advance(c, owns, r))
  {
    var h := Hear(c, owns, r);
    NothingLater(c, owns, r);
    if r.found {
      assert BeforeCheck(h) == Awaits(AtInit);
      WaitTells(h, Initializing);
    } else {
      LeaveTells(h, NotArchived(SessionNotFound));
    }
  }

  lemma InitializingTells(c: Call, owns: bool, r: Reading)
    requires Ready(c) && c.phase.Initializing?
    ensures IsWhereTold(Advance(c, owns, r))
  {
    var h := Hear(c, owns, r);
    NothingLater(c, owns, r);
    HearingAgrees(c, owns, r);
    WaitingMeans(c);
    assert AtQueue in h.heard && h.heard[AtQueue].r.found;
    if r.failed {
      LeaveTells(h, Threw);
    } else if !c.policy.Confirm? && owns {
      LeaveTells(h, NotArchived(TargetSessionRunning));
    } else if r.hasTargets {
      WaitTells(h, Inspecting);
    } else {
      DecideTells(h, AtInit, false, r);
    }
  }

  lemma InspectingTells(c: Call, owns: bool, r: Reading)
    requires Ready(c) && c.phase.Inspecting?
    ensures IsWhereTold(Advance(c, owns, r))
  {
    var h := Hear(c, owns, r);
    NothingLater(c, owns, r);
    HearingAgrees(c, owns, r);
    WaitingMeans(c);
    assert AtInit in h.heard && h.heard[AtInit] == c.heard[AtInit] && HasTargets(c);
    if r.failed {
      LeaveTells(h, NotArchived(GitInspectionFailed));
    } else {
      DecideTells(h, AtInspect, r.discards && !h.revalidates, r);
    }
  }

  lemma ConfirmingTells(c: Call, owns: bool, r: Reading)
    requires Ready(c) && c.phase.Confirming?
    ensures IsWhereTold(Advance(c, owns, r))
  {
    var h := Hear(c, owns, r);
    NothingLater(c, owns, r);
    HearingAgrees(c, owns, r);
    WaitingMeans(c);
    AskedUser(c);
    assert AsksUser(h) && AtInspect in h.heard && h.heard[AtInspect] == c.heard[AtInspect];
    if r.failed {
      LeaveTells(h, Threw);
    } else if !r.confirmed {
      LeaveTells(h, NotArchived(BlockedUnsavedChanges));
    } else {
      PrecheckTells(h, AtConfirm, r);
    }
  }

  lemma AskedUser(c: Call)
    requires BeforeCheck(c) == Awaits(AtConfirm)
    ensures AsksUser(c) && AtConfirm !in c.heard
  {
  }

  lemma RevalidatingTells(c: Call, owns: bool, r: Reading)
    requires Ready(c) && c.phase.Revalidating?
    ensures IsWhereTold(Advance(c, owns, r))
  {
    var h := Hear(c, owns, r);
    NothingLater(c, owns, r);
    HearingAgrees(c, owns, r);
    WaitingMeans(c);
    SameBeforeCheck(c, h);
    if r.failed {
      LeaveTells(h, Threw);
    } else if !r.valid {
      LeaveTells(h, NotArchived(BlockedUnsavedChanges));
    } else {
      RequestTells(h, r);
    }
  }

  lemma UnleasedIsNotSent(c: Call)
    requires Unleased(c)
    ensures BeforeMutation(c) != Awaits(AtMutate)
  {
  }

  lemma PreludeTells(c: Call, owns: bool, r: Reading)
    requires Ready(c) && BeforeLease(c.phase) && !c.dispatched
    ensures var d := Advance(c, owns, r); IsWhereTold(d) && SentAsTold(d)
  {
    match c.phase {
      case Queued(_) => QueuedTells(c, owns, r);
      case Initializing => InitializingTells(c, owns, r);
      case Inspecting => InspectingTells(c, owns, r);
      case Confirming => ConfirmingTells(c, owns, r);
      case Revalidating => RevalidatingTells(c, owns, r);
      case _ =>
    }
    PreludeSendsNothing(c, owns, r);
  }

  lemma PreludeSendsNothing(c: Call, owns: bool, r: Reading)
    requires HeardInOrder(c) && BeforeLease(c.phase) && !c.dispatched
    ensures SentAsTold(Advance(c, owns, r))
  {
    var h := Hear(c, owns, r);
    NothingLater(c, owns, r);
    PrepareMovesOn(h, owns, r);
    UnleasedIsNotSent(Prepare(h, owns, r));
  }

  // ---------------------------------------------------------------- from the race on

  /** The story told after the race. */
  lemma LateStory(c: Call)
    ensures BeforeMutation(c) != Awaits(AtMutate) ==> Story(c) == BeforeMutation(c)
    ensures BeforeMutation(c) == Awaits(AtMutate) && AtMutate !in c.heard ==> Story(c) == Awaits(AtMutate)
  {
  }

  lemma GiveBackTells(h: Call, out: Outcome)
    requires BeforeMutation(h) == Ends(out) && !h.dispatched
    ensures IsWhereTold(GiveBack(h, out)) && SentAsTold(GiveBack(h, out))
  {
    StoriesOfSame(h, GiveBack(h, out));
    LateStory(GiveBack(h, out));
  }

  lemma MutateTells(h: Call, stage: Stage, r: Reading)
    requires stage in h.heard && h.heard[stage].r == r && AtMutate !in h.heard && !h.dispatched
    requires BeforeMutation(h) == Stopped(h, stage, Awaits(AtMutate))
    ensures IsWhereTold(Mutate(h, r)) && SentAsTold(Mutate(h, r))
  {
    InterruptionTold(h, stage, Awaits(AtMutate));
    match Interruption(h, r)
    case Some(reason) => GiveBackTells(h, NotArchived(reason));
    case None =>
      var d := h.(phase := Mutating, dispatched := true);
      StoriesOfSame(h, d);
      LateStory(d);
  }

  lemma NothingAfter(c: Call, owns: bool, r: Reading)
    requires HeardInOrder(c) && !BeforeLease(c.phase) && !c.phase.Done?
    ensures var h := Hear(c, owns, r);
            && (c.phase.Acquiring? ==> AtReinit !in h.heard)
            && (c.phase.Acquiring? || c.phase.Reinitializing? ==> AtStop !in h.heard)
            && (c.phase.Acquiring? || c.phase.Reinitializing? || c.phase.Stopping? ==> AtMutate !in h.heard)
            && (!c.phase.CleaningUp? && !c.phase.Releasing? ==> AtCleanUp !in h.heard)
  {
  }

  lemma AcquiringTells(c: Call, owns: bool, r: Reading)
    requires Ready(c) && c.phase.Acquiring? && !c.race.Undecided? && !c.dispatched
    ensures var d := Advance(c, owns, r); IsWhereTold(d) && SentAsTold(d)
  {
    var h := Hear(c, owns, r);
    HearingAgrees(c, owns, r);
    NothingAfter(c, owns, r);
    EarlyStory(c);
    assert BeforeRace(c) == Awaits(AtRace);
    SameBeforeRace(c, h);
    InterruptionTold(h, AtRace, Awaits(AtReinit));
    var d := Advance(c, owns, r);
    assert BeforeMutation(h) == (if h.race.Lost? then Ends(NotArchived(TimedOut)) else if !h.race.Won? then Ends(Threw)
                                 else Stopped(h, AtRace, Awaits(AtReinit)));
    AfterRace(h, owns, r);
  }

  lemma AfterRace(h: Call, owns: bool, r: Reading)
    requires h.phase.Acquiring? && !h.race.Undecided? && AtRace in h.heard && h.heard[AtRace].r == r && !h.dispatched
    requires BeforeMutation(h) == (if h.race.Lost? then Ends(NotArchived(TimedOut))
                                   else if !h.race.Won? then Ends(Threw)
                                   else Stopped(h, AtRace, Awaits(AtReinit)))
    ensures var d := Perform(h, owns, r); IsWhereTold(d) && SentAsTold(d)
  {
    var d := Perform(h, owns, r);
    InterruptionTold(h, AtRace, Awaits(AtReinit));
    StoriesOfSame(h, d);
    LateStory(d);
  }

  lemma ReinitializingTells(c: Call, owns: bool, r: Reading)
    requires Ready(c) && c.phase.Reinitializing? && !c.dispatched
    ensures var d := Advance(c, owns, r); IsWhereTold(d) && SentAsTold(d)
  {
    var h := Hear(c, owns, r);
    HearingAgrees(c, owns, r);
    NothingAfter(c, owns, r);
    RaceWasWon(c);
    SameBeforeRace(c, h);
    if r.failed {
      GiveBackTells(h, Threw);
    } else if !c.policy.Confirm? && owns {
      GiveBackTells(h, NotArchived(TargetSessionRunning));
    } else if owns {
      var d := h.(phase := Stopping);
      StoriesOfSame(h, d);
      LateStory(d);
    } else {
      MutateTells(h, AtReinit, r);
    }
  }

  /** What the story has come to once the lease is held. */
  lemma RaceWasWon(c: Call)
    requires IsWhereTold(c) && (c.phase.Reinitializing? || c.phase.Stopping?)
    ensures BeforeRace(c) == Awaits(AtRace) && AtRace in c.heard && c.race.Won?
    ensures !OutOfTime(c, AtRace) && !Busy(c, AtRace)
    ensures c.phase.Stopping? ==>
              AtReinit in c.heard && !Rejected(c, AtReinit) && Owned(c, AtReinit) && c.policy.Confirm?
  {
    EarlyStory(c);
    LateStory(c);
  }

  lemma StoppingTells(c: Call, owns: bool, r: Reading)
    requires Ready(c) && c.phase.Stopping? && !c.dispatched
    ensures var d := Advance(c, owns, r); IsWhereTold(d) && SentAsTold(d)
  {
    var h := Hear(c, owns, r);
    HearingAgrees(c, owns, r);
    NothingAfter(c, owns, r);
    RaceWasWon(c);
    SameBeforeRace(c, h);
    assert h.heard[AtReinit] == c.heard[AtReinit] && h.heard[AtRace] == c.heard[AtRace];
    if r.failed || r.stillOwns || owns {
      GiveBackTells(h, NotArchived(VoiceStopFailed));
    } else {
      MutateTells(h, AtStop, r);
    }
  }

  lemma SameStory(c: Call, d: Call)
    requires Agrees(c, d, 10) && c.race == d.race
    ensures BeforeMutation(c) == BeforeMutation(d) && Story(c) == Story(d)
  {
    SameBeforeMutation(c, d);
    assert Order(AtMutate) < 10 && Order(AtCleanUp) < 10;
  }

  lemma FinalStory(h: Call)
    requires BeforeMutation(h) == Awaits(AtMutate) && AtMutate in h.heard
    ensures Rejected(h, AtMutate) ==>
              Story(h) ==
                Ends(NotArchived(if h.heard[AtMutate].r.missing then SessionNotFound else BackendArchiveFailed))
    ensures !Rejected(h, AtMutate) && AtCleanUp !in h.heard ==> Story(h) == Awaits(AtCleanUp)
    ensures !Rejected(h, AtMutate) && AtCleanUp in h.heard ==>
              var r := h.heard[AtCleanUp].r;
              Story(h) == Ends(Archived(if r.failed then Some(r.interrupted.GetOr(WorkspaceCleanupFailed)) else None))
  {
  }

  lemma EndTells(h: Call, out: Outcome)
    requires Story(h) == Ends(out) && SentAsTold(h)
    ensures IsWhereTold(GiveBack(h, out)) && SentAsTold(GiveBack(h, out))
  {
    StoriesOfSame(h, GiveBack(h, out));
  }

  lemma MutatingTells(c: Call, owns: bool, r: Reading)
    requires Ready(c) && c.phase.Mutating? && SentAsTold(c)
    ensures var d := Advance(c, owns, r); IsWhereTold(d) && SentAsTold(d)
  {
    var h := Hear(c, owns, r);
    HearingAgrees(c, owns, r);
    NothingAfter(c, owns, r);
    LateStory(c);
    SameBeforeMutation(c, h);
    FinalStory(h);
    if r.failed {
      EndTells(h, NotArchived(if r.missing then SessionNotFound else BackendArchiveFailed));
    } else {
      StoriesOfSame(h, h.(phase := CleaningUp));
    }
  }

  lemma CleaningUpTells(c: Call, owns: bool, r: Reading)
    requires Ready(c) && c.phase.CleaningUp? && SentAsTold(c)
    ensures var d := Advance(c, owns, r); IsWhereTold(d) && SentAsTold(d)
  {
    var h := Hear(c, owns, r);
    HearingAgrees(c, owns, r);
    CleaningUpMeans(c);
    SameBeforeMutation(c, h);
    FinalStory(h);
    EndTells(h, Archived(if r.failed then Some(r.interrupted.GetOr(WorkspaceCleanupFailed)) else None));
  }

  lemma CleaningUpMeans(c: Call)
    requires IsWhereTold(c) && c.phase.CleaningUp?
    ensures BeforeMutation(c) == Awaits(AtMutate) && AtMutate in c.heard && !Rejected(c, AtMutate)
  {
    LateStory(c);
    EarlyStory(c);
  }

  lemma ReleasingTells(c: Call, owns: bool, r: Reading)
    requires Ready(c) && c.phase.Releasing? && SentAsTold(c)
    ensures var d := Advance(c, owns, r); IsWhereTold(d) && SentAsTold(d)
  {
    HearingAgrees(c, owns, r);
    SameStory(c, Advance(c, owns, r));
  }

  // ---------------------------------------------------------------- over all runs

  /** What is told of every call. */
  ghost predicate Accounted(c: Call) {
    IsWhereTold(c) && HeardInOrder(c) && SentAsTold(c)
  }

  lemma StaysInOrder(c: Call, owns: bool, r: Reading)
    requires HeardInOrder(c) && LeaseIsTracked(c) && !c.phase.Done? && (c.phase.Acquiring? ==> !c.race.Undecided?)
    ensures HeardInOrder(Advance(c, owns, r))
  {
    var h := Hear(c, owns, r);
    HearingMovesNothing(c, owns, r);
    if BeforeLease(c.phase) {
      PrepareTracks(h, owns, r);
      NothingLater(c, owns, r);
      PrepareMovesOn(h, owns, r);
    } else {
      PerformTracks(h, owns, r);
      PerformMovesOn(h, owns, r);
    }
  }

  lemma AdvanceAccounts(c: Call, owns: bool, r: Reading)
    requires Accounted(c) && LeaseIsTracked(c) && !c.phase.Done? && (c.phase.Acquiring? ==> !c.race.Undecided?)
    ensures Accounted(Advance(c, owns, r))
  {
    StaysInOrder(c, owns, r);
    if BeforeLease(c.phase) {
      PreludeTells(c, owns, r);
    } else {
      match c.phase {
        case Acquiring => AcquiringTells(c, owns, r);
        case Reinitializing => ReinitializingTells(c, owns, r);
        case Stopping => StoppingTells(c, owns, r);
        case Mutating => MutatingTells(c, owns, r);
        case CleaningUp => CleaningUpTells(c, owns, r);
        case Releasing(_) => ReleasingTells(c, owns, r);
        case _ =>
      }
    }
  }

  /** A lease that settles, a deadline that passes or a late release tell a call nothing. */
  lemma SettlingTellsNothing(s: Shell, e: Event)
    requires OfCall(e) && !e.Resume? && Enabled(s, e) && LeaseIsTracked(s.calls[e.i]) && Accounted(s.calls[e.i])
    ensures Accounted(StepCall(s, e, s.calls[e.i]))
  {
    var c, d := s.calls[e.i], StepCall(s, e, s.calls[e.i]);
    if c.race == d.race {
      SameStory(c, d);
    } else {
      assert AtRace !in c.heard;
      SameBeforeRace(c, d);
      EarlyStory(c);
      EarlyStory(d);
      RaceStillOpen(c);
      RaceStillOpen(d);
    }
  }

  lemma RaceStillOpen(c: Call)
    requires AtRace !in c.heard
    ensures BeforeMutation(c) == BeforeRace(c) && Story(c) == BeforeRace(c) && BeforeMutation(c) != Awaits(AtMutate)
  {
  }

  ghost predicate AllAccounted(s: Shell) {
    forall i :: 0 <= i < |s.calls| ==> Accounted(s.calls[i])
  }

  lemma NewCallIsAccounted(target: string, policy: Policy, deadline: Option<int>, revalidates: bool, previous: nat,
                           promise: nat)
    ensures Accounted(NewCall(target, policy, deadline, revalidates, previous, promise))
  {
  }

  lemma AccountsStep(s: Shell, e: Event)
    requires AllTracked(s) && AllAccounted(s) && Enabled(s, e)
    ensures AllAccounted(Step(s, e))
  {
    if OfCall(e) {
      var c := s.calls[e.i];
      assert LeaseIsTracked(c) && TargetIsQuiet(c, s.voice) && Accounted(c);
      if e.Resume? {
        AdvanceAccounts(c, s.voice == Some(c.target), e.r);
      } else {
        SettlingTellsNothing(s, e);
      }
    } else if e.Archive? {
      NewCallIsAccounted(e.target, e.policy, e.deadline, e.revalidates, s.tail, |s.calls| + 1);
    }
  }

  lemma {:induction false} RunsAccount(s: Shell, es: seq<Event>, t: Shell)
    requires AllTracked(s) && AllAccounted(s) && Runs(s, es, t)
    ensures AllAccounted(t)
    decreases |es|
  {
    if es != [] {
      AllTrackedStep(s, es[0]);
      AccountsStep(s, es[0]);
      RunsAccount(Step(s, es[0]), es[1..], t);
    }
  }

  /** In every run, where each call is and what comes of it is settled by what it has heard. */
  lemma EveryCallIsWhereTold(es: seq<Event>, s: Shell, c: Call)
    requires Runs(INITIAL, es, s) && c in s.calls
    ensures IsWhereTold(c) && SentAsTold(c)
  {
    RunsAccount(INITIAL, es, s);
    var i :| 0 <= i < |s.calls| && s.calls[i] == c;
    assert Accounted(s.calls[i]);
  }

  /** In every run a mutation is sent only for a session that was found, whose inspection
      succeeded if there was anything to inspect; if files would be lost, not under the
      reject policy, and under the confirm policy only once the user agreed; only after a
      revalidation, if one is asked for, that found nothing changed; only in time and, with no
      user behind it, only while the session is idle, at each check; only once the race for
      the lease is won; and only if the target's voice, if it had one, was stopped for the
      user. */
  lemma DispatchIsJustified(es: seq<Event>, s: Shell, c: Call)
    requires Runs(INITIAL, es, s) && c in s.calls && c.dispatched
    ensures AtQueue in c.heard && c.heard[AtQueue].r.found
    ensures AtInit in c.heard && !c.heard[AtInit].r.failed && (c.heard[AtInit].owns ==> c.policy.Confirm?)
    ensures c.heard[AtInit].r.hasTargets ==> AtInspect in c.heard && !c.heard[AtInspect].r.failed
    ensures c.heard[AtInit].r.hasTargets && c.heard[AtInspect].r.discards && !c.revalidates ==>
              && !c.policy.Reject?
              && (c.policy.Confirm? ==>
                    AtConfirm in c.heard && !c.heard[AtConfirm].r.failed && c.heard[AtConfirm].r.confirmed)
    ensures c.revalidates ==>
              AtRevalidate in c.heard && !c.heard[AtRevalidate].r.failed && c.heard[AtRevalidate].r.valid
    ensures c.race.Won? && AtRace in c.heard && AtReinit in c.heard && !c.heard[AtReinit].r.failed
    ensures c.heard[AtReinit].owns ==>
              && c.policy.Confirm? && AtStop in c.heard && !c.heard[AtStop].r.failed
              && !c.heard[AtStop].r.stillOwns && !c.heard[AtStop].owns
    ensures forall stage :: stage in {CheckStage(c), AtRace, if c.heard[AtReinit].owns then AtStop else AtReinit} ==>
              && stage in c.heard
              && (c.deadline.Some? ==> c.heard[stage].r.now < c.deadline.value - 3000)
              && (!c.policy.Confirm? ==> !c.heard[stage].r.busy)
  {
    EveryCallIsWhereTold(es, s, c);
    MutationMeans(c);
    CheckMeans(c);
  }

  lemma CheckMeans(c: Call)
    requires BeforeCheck(c) == Awaits(AtRevalidate)
    ensures AtQueue in c.heard && c.heard[AtQueue].r.found
    ensures AtInit in c.heard && !c.heard[AtInit].r.failed && (c.heard[AtInit].owns ==> c.policy.Confirm?)
    ensures HasTargets(c) ==> AtInspect in c.heard && !c.heard[AtInspect].r.failed
    ensures WouldDiscard(c) ==>
              && !c.policy.Reject?
              && (c.policy.Confirm? ==>
                    AtConfirm in c.heard && !c.heard[AtConfirm].r.failed && c.heard[AtConfirm].r.confirmed)
    ensures CheckStage(c) in c.heard && !OutOfTime(c, CheckStage(c)) && !Busy(c, CheckStage(c))
  {
  }

  lemma MutationMeans(c: Call)
    requires BeforeMutation(c) == Awaits(AtMutate)
    ensures BeforeCheck(c) == Awaits(AtRevalidate)
    ensures c.revalidates ==>
              AtRevalidate in c.heard && !c.heard[AtRevalidate].r.failed && c.heard[AtRevalidate].r.valid
    ensures c.race.Won? && AtRace in c.heard && AtReinit in c.heard && !c.heard[AtReinit].r.failed
    ensures c.heard[AtReinit].owns ==>
              && c.policy.Confirm? && AtStop in c.heard && !c.heard[AtStop].r.failed
              && !c.heard[AtStop].r.stillOwns && !c.heard[AtStop].owns
    ensures !OutOfTime(c, AtRace) && !Busy(c, AtRace)
    ensures var last := if c.heard[AtReinit].owns then AtStop else AtReinit; !OutOfTime(c, last) && !Busy(c, last)
  {
    EarlyStory(c);
  }

  // ---------------------------------------------------------------- what holds of every run

  predicate InBody(c: Call) {
    !c.phase.Queued? && !c.phase.Done?
  }

  /** Bodies run one at a time and in call order: once a call's body has begun, every
      earlier call is done. */
  lemma OneBodyAtATime(es: seq<Event>, s: Shell)
    requires Runs(INITIAL, es, s)
    ensures forall i, j :: 0 <= i < j < |s.calls| && !s.calls[j].phase.Queued? ==> s.calls[i].phase.Done?
    ensures forall i, j :: 0 <= i < |s.calls| && 0 <= j < |s.calls| && InBody(s.calls[i]) && InBody(s.calls[j]) ==>
              i == j
  {
    ReachableIsSound(es, s);
    forall i, j | 0 <= i < |s.calls| && 0 <= j < |s.calls| && InBody(s.calls[i]) && InBody(s.calls[j])
      ensures i == j
    {
      if i < j {
        assert false;
      } else if j < i {
        assert false;
      }
    }
  }

  /** A lease is never released twice nor without having been granted, and it is held
      from the dispatch of the mutation to the end of the clean-up, during which the
      target owns no voice. */
  lemma MutationIsProtected(es: seq<Event>, s: Shell, c: Call)
    requires Runs(INITIAL, es, s) && c in s.calls
    ensures c.releases <= 1 && (c.releases == 1 ==> c.lease.Granted?)
    ensures c.phase.Mutating? || c.phase.CleaningUp? ==> Holds(c) && s.voice != Some(c.target)
    ensures c.phase.Done? ==> OutcomeFits(c.phase.out, c.dispatched)
  {
    ReachableIsSound(es, s);
    var i :| 0 <= i < |s.calls| && s.calls[i] == c;
    assert LeaseIsTracked(c) && TargetIsQuiet(c, s.voice);
  }

  /** Nothing that was awaited can still settle. */
  ghost predicate Quiescent(s: Shell) {
    forall e: Event :: OfCall(e) ==> !Enabled(s, e)
  }

  const ANY_READING := Reading(false, false, false, false, false, false, false, 0, 0, false, false, None)

  lemma CallIsFinished(s: Shell, i: nat)
    requires i < |s.calls| && LeaseIsTracked(s.calls[i]) && Quiescent(s)
    requires s.calls[i].phase.Queued? ==> s.calls[i].phase.previous in s.resolved
    ensures s.calls[i].phase.Done? && !s.calls[i].lease.Pending?
    ensures s.calls[i].releases == if s.calls[i].lease.Granted? then 1 else 0
  {
    assert !Enabled(s, Resume(i, ANY_READING));
    assert !Enabled(s, Grant(i));
    assert !Enabled(s, LateRelease(i));
  }

  /** No deadlock and no leak: when nothing can settle any more, every call is done and
      every lease that was granted, late ones included, has been released exactly once. */
  lemma NothingIsStuck(es: seq<Event>, s: Shell)
    requires Runs(INITIAL, es, s) && Quiescent(s)
    ensures forall c :: c in s.calls ==>
              c.phase.Done? && !c.lease.Pending? && c.releases == if c.lease.Granted? then 1 else 0
  {
    ReachableIsSound(es, s);
    AllFinishedUpTo(s, |s.calls|);
  }

  lemma {:induction false} AllFinishedUpTo(s: Shell, n: nat)
    requires AllTracked(s) && InLine(s) && Quiescent(s) && n <= |s.calls|
    ensures forall i :: 0 <= i < n ==>
              var c := s.calls[i]; c.phase.Done? && !c.lease.Pending? && c.releases == if c.lease.Granted? then 1 else 0
  {
    if n > 0 {
      AllFinishedUpTo(s, n - 1);
      if n > 1 {
        assert s.calls[n - 2].phase.Done?;
        assert Finished(s, n - 1);
      }
      CallIsFinished(s, n - 1);
    }
  }

  function Work(calls: seq<Call>): nat {
    if calls == [] then 0 else Rank(calls[0]) + Work(calls[1..])
  }

  lemma {:induction false} WorkDrops(calls: seq<Call>, i: nat, d: Call)
    requires i < |calls| && Rank(d) < Rank(calls[i])
    ensures Work(calls[i := d]) < Work(calls)
  {
    if i == 0 {
      assert calls[0 := d][1..] == calls[1..];
    } else {
      assert calls[i := d][1..] == calls[1..][i - 1 := d];
      WorkDrops(calls[1..], i - 1, d);
    }
  }

  /** And it comes to that: from any reachable point only so many answers can still settle. */
  lemma {:induction false} WorkBoundsRuns(s: Shell, es: seq<Event>, t: Shell)
    requires AllTracked(s) && Runs(s, es, t)
    requires forall e :: e in es ==> OfCall(e)
    ensures |es| + Work(t.calls) <= Work(s.calls)
    decreases |es|
  {
    if es != [] {
      var e := es[0];
      assert OfCall(e);
      assert LeaseIsTracked(s.calls[e.i]) && TargetIsQuiet(s.calls[e.i], s.voice);
      StepCallTracks(s, e);
      WorkDrops(s.calls, e.i, StepCall(s, e, s.calls[e.i]));
      AllTrackedStep(s, e);
      WorkBoundsRuns(Step(s, e), es[1..], t);
    }
  }

  // ---------------------------------------------------------------- the shell

  class AppShell {
    var calls: seq<Call>
    var tail: nat
    var resolved: set<nat>
    var voice: Option<string>

    function Model(): Shell
      reads this
    {
      Shell(calls, tail, resolved, voice)
    }

    constructor ()
      ensures Model() == INITIAL
    {
      calls, tail, resolved, voice := [], 0, {0}, None;
    }

    method ArchiveChat(target: string, policy: Policy, deadline: Option<int>, revalidates: bool)
      modifies this
      ensures Model() == Step(old(Model()), Archive(target, policy, deadline, revalidates))
    {
      var previous := tail;
      tail := |calls| + 1;
      calls := calls + [NewCall(target, policy, deadline, revalidates, previous, tail)];
    }

    /** An await has settled. */
    method Hears(i: nat, r: Reading)
      requires i < |calls|
      modifies this`calls
      ensures calls == old(calls)[i := Hear(old(calls)[i], voice == Some(old(calls)[i].target), r)]
      ensures forall d :: Put(Model(), i, d) == Put(old(Model()), i, d)
    {
      ghost var s := Model();
      var owns := voice == Some(calls[i].target);
      calls := calls[i := calls[i].(heard := calls[i].heard[StageOf(calls[i].phase) := Heard(r, owns)])];
      forall d ensures Put(Model(), i, d) == Put(s, i, d) {
        assert calls[i := d] == s.calls[i := d];
      }
    }

    method Await(i: nat, phase: Phase)
      requires i < |calls| && !phase.Done?
      modifies this`calls
      ensures Model() == Put(old(Model()), i, old(calls)[i].(phase := phase))
    {
      calls := calls[i := calls[i].(phase := phase)];
    }

    /** The outer `finally`: whatever the result, the queue moves on. */
    method Return(i: nat, out: Outcome)
      requires i < |calls|
      modifies this`calls, this`resolved
      ensures Model() == Put(old(Model()), i, Leave(old(calls)[i], out))
    {
      resolved := resolved + {calls[i].promise};
      calls := calls[i := calls[i].(phase := Done(out))];
    }

    /** The inner `finally`. */
    method ReleaseVoiceStartBlock(i: nat, out: Outcome)
      requires i < |calls|
      modifies this`calls
      ensures Model() == Put(old(Model()), i, GiveBack(old(calls)[i], out))
    {
      calls := calls[i := calls[i].(phase := Releasing(out), releases := calls[i].releases + 1)];
    }

    method AcquireVoiceStartBlockBeforeDeadline(i: nat, r: Reading)
      requires i < |calls|
      modifies this`calls
      ensures Model() == Put(old(Model()), i, Request(old(calls)[i], r))
    {
      var c := calls[i].(phase := Acquiring, lease := Pending);
      if c.deadline.Some? {
        var remaining := c.deadline.value - MUTATION_DEADLINE_MARGIN_MS - r.later;
        if remaining <= 0 {
          c := c.(race := Lost, armed := true);
        }
      }
      calls := calls[i := c];
    }

    method CheckAndAcquire(i: nat, r: Reading)
      requires i < |calls|
      modifies this`calls, this`resolved
      ensures Model() == Put(old(Model()), i, Precheck(old(calls)[i], r))
    {
      var interruption := Interruption(calls[i], r);
      if interruption.Some? {
        Return(i, NotArchived(interruption.value));
      } else if calls[i].revalidates {
        Await(i, Revalidating);
      } else {
        AcquireVoiceStartBlockBeforeDeadline(i, r);
      }
    }

    method DecideOnDiscards(i: nat, discards: bool, r: Reading)
      requires i < |calls|
      modifies this`calls, this`resolved
      ensures Model() == Put(old(Model()), i, Decide(old(calls)[i], discards, r))
    {
      if discards && calls[i].policy == Reject {
        Return(i, NotArchived(CleanupRequiresDiscard));
        return;
      }
      if discards && calls[i].policy == Confirm {
        Await(i, Confirming);
        return;
      }
      CheckAndAcquire(i, r);
    }

    method ContinueBeforeLease(i: nat, r: Reading)
      requires i < |calls| && Resumable(calls[i], resolved) && BeforeLease(calls[i].phase)
      modifies this`calls, this`resolved
      ensures Model() == Step(old(Model()), Resume(i, r))
    {
      Hears(i, r);
      var c := calls[i];
      if c.phase.Queued? {
        if !r.found {
          Return(i, NotArchived(SessionNotFound));
          return;
        }
        Await(i, Initializing);
      } else if c.phase.Inspecting? {
        if r.failed {
          Return(i, NotArchived(GitInspectionFailed));
          return;
        }
        DecideOnDiscards(i, r.discards && !c.revalidates, r);
      } else if r.failed {
        Return(i, Threw);
      } else if c.phase.Initializing? {
        if c.policy != Confirm && voice == Some(c.target) {
          Return(i, NotArchived(TargetSessionRunning));
          return;
        }
        if r.hasTargets {
          Await(i, Inspecting);
        } else {
          DecideOnDiscards(i, false, r);
        }
      } else if c.phase.Confirming? {
        if !r.confirmed {
          Return(i, NotArchived(BlockedUnsavedChanges));
          return;
        }
        CheckAndAcquire(i, r);
      } else {
        if !r.valid {
          Return(i, NotArchived(BlockedUnsavedChanges));
          return;
        }
        AcquireVoiceStartBlockBeforeDeadline(i, r);
      }
    }

    method CheckAndMutate(i: nat, r: Reading)
      requires i < |calls|
      modifies this`calls
      ensures Model() == Put(old(Model()), i, Mutate(old(calls)[i], r))
    {
      var interruption := Interruption(calls[i], r);
      if interruption.Some? {
        ReleaseVoiceStartBlock(i, NotArchived(interruption.value));
      } else {
        calls := calls[i := calls[i].(phase := Mutating, dispatched := true)];
      }
    }

    method ContinueAfterRace(i: nat, r: Reading)
      requires i < |calls| && Resumable(calls[i], resolved) && calls[i].phase.Acquiring?
      modifies this`calls, this`resolved
      ensures Model() == Step(old(Model()), Resume(i, r))
    {
      Hears(i, r);
      var c := calls[i];
      if c.race.Failed? {
        Return(i, Threw);
        return;
      }
      if c.race.Lost? {
        calls := calls[i := c.(armed := true)];
        Return(i, NotArchived(TimedOut));
        return;
      }
      var interruption := Interruption(c, r);
      if interruption.Some? {
        ReleaseVoiceStartBlock(i, NotArchived(interruption.value));
        return;
      }
      Await(i, Reinitializing);
    }

    method ContinueWithLease(i: nat, r: Reading)
      requires i < |calls| && Resumable(calls[i], resolved) && HasLease(calls[i].phase)
      modifies this`calls, this`resolved
      ensures Model() == Step(old(Model()), Resume(i, r))
    {
      Hears(i, r);
      var c := calls[i];
      var owns := voice == Some(c.target);
      if c.phase.Reinitializing? {
        if r.failed {
          ReleaseVoiceStartBlock(i, Threw);
        } else if c.policy != Confirm && owns {
          ReleaseVoiceStartBlock(i, NotArchived(TargetSessionRunning));
        } else if owns {
          Await(i, Stopping);
        } else {
          CheckAndMutate(i, r);
        }
      } else if c.phase.Stopping? {
        if r.failed || r.stillOwns || owns {
          ReleaseVoiceStartBlock(i, NotArchived(VoiceStopFailed));
        } else {
          CheckAndMutate(i, r);
        }
      } else if c.phase.Mutating? {
        if r.failed {
          ReleaseVoiceStartBlock(i, NotArchived(if r.missing then SessionNotFound else BackendArchiveFailed));
        } else {
          Await(i, CleaningUp);
        }
      } else {
        ReleaseVoiceStartBlock(i,
            Archived(if r.failed then Some(r.interrupted.GetOr(WorkspaceCleanupFailed)) else None));
      }
    }

    method Released(i: nat, r: Reading)
      requires i < |calls| && calls[i].phase.Releasing?
      modifies this`calls, this`resolved
      ensures Model() == Step(old(Model()), Resume(i, r))
    {
      Hears(i, r);
      Return(i, calls[i].phase.out);
    }

    /** The acquisition settles: it decides a race that is still open. */
    method LeaseSettles(i: nat, granted: bool)
      requires i < |calls| && calls[i].lease.Pending?
      requires calls[i].phase.Done? ==> calls[i].promise in resolved
      modifies this`calls
      ensures Model() == Step(old(Model()), if granted then Grant(i) else Refuse(i))
    {
      var c := calls[i].(lease := if granted then Granted else Refused);
      if c.race.Undecided? {
        c := c.(race := if granted then Won else Failed);
      }
      assert c.promise in resolved ==> resolved + {c.promise} == resolved;
      calls := calls[i := c];
    }

    /** The callback that stood by for a lease nobody waits for any more. */
    method ReleaseLateLease(i: nat)
      requires Enabled(Model(), LateRelease(i))
      requires calls[i].phase.Done? ==> calls[i].promise in resolved
      modifies this`calls
      ensures Model() == Step(old(Model()), LateRelease(i))
    {
      var c := calls[i].(late := true, releases := calls[i].releases + 1);
      assert c.promise in resolved ==> resolved + {c.promise} == resolved;
      calls := calls[i := c];
    }

    method DeadlinePasses(i: nat)
      requires Enabled(Model(), Expire(i))
      modifies this`calls
      ensures Model() == Step(old(Model()), Expire(i))
    {
      calls := calls[i := calls[i].(race := Lost)];
    }
  }
}
