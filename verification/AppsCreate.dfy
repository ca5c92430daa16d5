/** The `apps create` protocol: plan, reserve, perhaps inspect, initialize, against a
    server whose answers may be lost. Redaction of answers is the subject of another
    module; an answer it refuses counts as garbled here. */
module AppsCreate {
  import opened Wrappers
  import opened Json

  // ---------------------------------------------------------------- answers

  /** `Unsent`: no response at all. `Garbled`: a response whose body could not be read or
      was refused. `body` is `None` when a body read in full is not JSON. */
  datatype Reply = Unsent | Garbled | Answer(success: bool, body: Option<Value>)

  datatype Failure = Coded(code: string) | Plain
  datatype Received = Ok(value: Value) | Err(failure: Failure)

  const NETWORK_ERROR := "network_error"
  const REQUEST_FAILED := "control_plane_request_failed"

  function ErrorCode(body: Option<Value>): string {
    match body
    case None => REQUEST_FAILED
    case Some(v) =>
      match Get(v, "error")
      case None => REQUEST_FAILED
      case Some(e) => (match GetStr(e, "code") case Some(code) => code case None => REQUEST_FAILED)
  }

  function Receive(r: Reply): Received {
    match r
    case Unsent => Err(Coded(NETWORK_ERROR))
    case Garbled => Err(Plain)
    case Answer(true, Some(v)) => Ok(v)
    case Answer(true, None) => Err(Plain)
    case Answer(false, body) => Err(Coded(ErrorCode(body)))
  }

  predicate OutcomeIsUnknown(f: Failure) {
    f.Plain? || f.code == NETWORK_ERROR
  }

  /** A non-empty string member. */
  function RequiredString(v: Value, key: string): Option<string> {
    match GetStr(v, key)
    case Some(s) => if s == "" then None else Some(s)
    case None => None
  }

  // ---------------------------------------------------------------- the plan

  function Setting(plan: Value, from: string, to: string): seq<Field> {
    match RequiredString(plan, from)
    case Some(s) => [Field(to, Str(s))]
    case None => []
  }

  /** The body that reserve and initialize carry. */
  function MutationRequest(plan: Value): Value {
    Obj(Setting(plan, "environment", "environment") + Setting(plan, "persistence", "persistence") +
        Setting(plan, "runtime_class", "runtime_class") + Setting(plan, "display_name", "name"))
  }

  method MutationRequestFromPlan(plan: Value) returns (body: Value)
    ensures body == MutationRequest(plan)
  {
    var request: seq<Field> := [];
    var names := ["environment", "persistence", "runtime_class"];
    for i := 0 to |names|
      invariant i == 0 ==> request == []
      invariant i == 1 ==> request == Setting(plan, "environment", "environment")
      invariant i == 2 ==>
                request == Setting(plan, "environment", "environment") + Setting(plan, "persistence", "persistence")
      invariant i == 3 ==>
                request == Setting(plan, "environment", "environment") + Setting(plan, "persistence", "persistence") +
                                      Setting(plan, "runtime_class", "runtime_class")
    {
      request := request + Setting(plan, names[i], names[i]);
    }
    request := request + Setting(plan, "display_name", "name");
    return Obj(request);
  }

  datatype Planned = Refused | Planned(id: string, initialize: bool, body: Value)

  function InitializeFlag(plan: Value, name: string): Option<bool> {
    match Get(plan, "initialize")
    case Some(v) => GetBool(v, name)
    case None => None
  }

  function PlanOf(requested: Option<string>, r: Received): Planned {
    match r
    case Err(_) => Refused
    case Ok(plan) =>
      var id := RequiredString(plan, "app_id");
      var required, recommended := InitializeFlag(plan, "required"), InitializeFlag(plan, "recommended");
      if id.None? || (requested.Some? && requested != id) || required.None? || recommended.None? then Refused
      else Planned(id.value, required.value || recommended.value, MutationRequest(plan))
  }

  // ---------------------------------------------------------------- inspection

  predicate AbsentOrEmptyText(v: Option<Value>) {
    match v
    case None => true
    case Some(Null) => true
    case Some(Str(s)) => s == ""
    case Some(_) => false
  }

  predicate Echoes(body: Value, app: Value, key: string) {
    GetStr(body, key).Some? ==> GetStr(app, key) == GetStr(body, key)
  }

  predicate EchoesSettings(body: Value, app: Value) {
    Echoes(body, app, "environment") && Echoes(body, app, "persistence") && Echoes(body, app, "runtime_class") &&
        Echoes(body, app, "name")
  }

  predicate IsOwnIdleApp(app: Value, id: string) {
    && GetStr(app, "app_id") == Some(id)
    && GetStr(app, "role") == Some("owner")
    && GetStr(app, "route_status") == Some("idle")
    && Get(app, "route_revision") == Some(Num(Integer(1)))
    && AbsentOrEmptyText(Get(app, "active_version_id"))
    && AbsentOrEmptyText(Get(app, "version_id"))
    && AbsentOrEmptyText(Get(app, "deleted_at"))
  }

  predicate IsMatchingIncompleteReservation(response: Value, id: string, body: Value) {
    match Get(response, "app")
    case Some(Obj(fields)) =>
      && GetBool(response, "ok") == Some(true) && GetArr(response, "versions") == Some([])
      && IsOwnIdleApp(Obj(fields), id) && EchoesSettings(body, Obj(fields))
    case _ => false
  }

  // ---------------------------------------------------------------- one run

  datatype Request = Plan | Reserve(id: string, body: Value) | Inspect(id: string,
                                    environment: Option<string>) | Initialize(id: string, body: Value)

  datatype Outcome =
    | Created(id: string, reconciled: bool, initialized: bool)
    | PlanRefused
    | ReserveMismatched
    | ReservationRejected(failure: Failure)
    | ReservationUnknown
    | InitializeFailed
    | InitializeMismatched

  /** A run asks each question at most once, so its answers are named by question. */
  datatype Answers = Answers(plan: Reply, reserve: Reply, inspect: Reply, initialize: Reply)

  datatype Reservation = Held(reconciled: bool) | NotHeld(outcome: Outcome)

  function Reserving(id: string, body: Value, a: Answers): (seq<Request>, Reservation) {
    match Receive(a.reserve)
    case Ok(v) =>
      ([Reserve(id, body)],
       if RequiredString(v, "app_id") == Some(id) then Held(false) else NotHeld(ReserveMismatched))
    case Err(f) =>
      ([Reserve(id, body), Inspect(id, GetStr(body, "environment"))],
       match Receive(a.inspect)
       case Ok(existing) =>
         if IsMatchingIncompleteReservation(existing, id, body) then Held(true)
         else if OutcomeIsUnknown(f) then NotHeld(ReservationUnknown) else NotHeld(ReservationRejected(f))
       case Err(_) =>
         if OutcomeIsUnknown(f) then NotHeld(ReservationUnknown) else NotHeld(ReservationRejected(f)))
  }

  function Initializing(id: string, reconciled: bool, r: Reply): Outcome {
    match Receive(r)
    case Err(_) => InitializeFailed
    case Ok(v) =>
      if RequiredString(v, "app_id") != Some(id) || RequiredString(v, "external_url").None? then InitializeMismatched
      else Created(id, reconciled, true)
  }

  function Conversation(requested: Option<string>, a: Answers): (seq<Request>, Outcome) {
    match PlanOf(requested, Receive(a.plan))
    case Refused => ([Plan], PlanRefused)
    case Planned(id, initialize, body) =>
      var (asked, held) := Reserving(id, body, a);
      match held
      case NotHeld(outcome) => ([Plan] + asked, outcome)
      case Held(reconciled) =>
        if initialize then ([Plan] + asked + [Initialize(id, body)], Initializing(id, reconciled, a.initialize))
        else ([Plan] + asked, Created(id, reconciled, false))
  }

  class Wire {
    const answers: Answers
    var log: seq<Request>

    constructor (answers: Answers)
      ensures this.answers == answers && log == []
    {
      this.answers, log := answers, [];
    }

    method Send(r: Request) returns (received: Received)
      modifies this`log
      ensures log == old(log) + [r]
      ensures received == Receive(match r case Plan => answers.plan case Reserve(_, _) => answers.reserve
                                  case Inspect(_, _) => answers.inspect case Initialize(_, _) => answers.initialize)
    {
      log := log + [r];
      match r
      case Plan => return Receive(answers.plan);
      case Reserve(_, _) => return Receive(answers.reserve);
      case Inspect(_, _) => return Receive(answers.inspect);
      case Initialize(_, _) => return Receive(answers.initialize);
    }
  }

  method ReconcileCreateReservation(wire: Wire, id: string, body: Value) returns (held: Reservation)
    modifies wire`log
    ensures Reserving(id, body, wire.answers).1 == held
    ensures wire.log == old(wire.log) + Reserving(id, body, wire.answers).0
  {
    var reserve := wire.Send(Reserve(id, body));
    match reserve
    case Ok(v) =>
      if RequiredString(v, "app_id") != Some(id) {
        return NotHeld(ReserveMismatched);
      }
      return Held(false);
    case Err(f) =>
      var inspect := wire.Send(Inspect(id, GetStr(body, "environment")));
      if inspect.Ok? && IsMatchingIncompleteReservation(inspect.value, id, body) {
        return Held(true);
      }
      if OutcomeIsUnknown(f) {
        return NotHeld(ReservationUnknown);
      }
      return NotHeld(ReservationRejected(f));
  }

  method RunPlan(wire: Wire, requested: Option<string>) returns (p: Planned)
    modifies wire`log
    ensures p == PlanOf(requested, Receive(wire.answers.plan)) && wire.log == old(wire.log) + [Plan]
  {
    var received := wire.Send(Plan);
    if received.Err? {
      return Refused;
    }
    var plan := received.value;
    var id := RequiredString(plan, "app_id");
    if id.None? || (requested.Some? && requested != id) {
      return Refused;
    }
    var required, recommended := InitializeFlag(plan, "required"), InitializeFlag(plan, "recommended");
    if required.None? || recommended.None? {
      return Refused;
    }
    var body := MutationRequestFromPlan(plan);
    return Planned(id.value, required.value || recommended.value, body);
  }

  method RunInitialize(wire: Wire, id: string, body: Value, reconciled: bool) returns (out: Outcome)
    modifies wire`log
    ensures out == Initializing(id, reconciled, wire.answers.initialize) &&
              wire.log == old(wire.log) + [Initialize(id, body)]
  {
    var initialized := wire.Send(Initialize(id, body));
    if initialized.Err? {
      return InitializeFailed;
    }
    if RequiredString(initialized.value, "app_id") != Some(id) ||
        RequiredString(initialized.value, "external_url").None? {
      return InitializeMismatched;
    }
    return Created(id, reconciled, true);
  }

  method RunCreate(wire: Wire, requested: Option<string>) returns (out: Outcome)
    modifies wire`log
    ensures out == Conversation(requested, wire.answers).1
    ensures wire.log == old(wire.log) + Conversation(requested, wire.answers).0
  {
    var p := RunPlan(wire, requested);
    match p
    case Refused => return PlanRefused;
    case Planned(id, initialize, body) =>
      ghost var asked := Reserving(id, body, wire.answers).0;
      var held := ReconcileCreateReservation(wire, id, body);
      assert wire.log == old(wire.log) + ([Plan] + asked);
      match held
      case NotHeld(outcome) => return outcome;
      case Held(reconciled) =>
        if !initialize {
          return Created(id, reconciled, false);
        }
        out := RunInitialize(wire, id, body, reconciled);
        assert wire.log == old(wire.log) + ([Plan] + asked + [Initialize(id, body)]);
  }

  // ---------------------------------------------------------------- what one run may ask and report

  /** The reservation is certain: its own answer named the exact id, or inspection found it. */
  predicate Certain(id: string, body: Value, a: Answers) {
    || (Receive(a.reserve).Ok? && RequiredString(Receive(a.reserve).value, "app_id") == Some(id))
    || (Receive(a.reserve).Err? && Receive(a.inspect).Ok? &&
        IsMatchingIncompleteReservation(Receive(a.inspect).value, id, body))
  }

  /** For every sequence of answers: reserving needs a plan with a non-empty id, the
      requested one if any, and both flags; initializing needs a certain reservation and a
      flag that is set; and both carry the same id and body. */
  lemma RequestsAreJustified(requested: Option<string>, a: Answers, r: Request)
    requires r in Conversation(requested, a).0 && !r.Plan?
    ensures Receive(a.plan).Ok?
    ensures var plan := Receive(a.plan).value;
            && GetStr(plan, "app_id") == Some(r.id) && r.id != "" && (requested.Some? ==> requested.value == r.id)
            && InitializeFlag(plan, "required").Some? && InitializeFlag(plan, "recommended").Some?
            && (!r.Inspect? ==> r.body == MutationRequest(plan))
            && (r.Initialize? ==>
                Certain(r.id, r.body, a) &&
                (InitializeFlag(plan, "required") == Some(true) || InitializeFlag(plan, "recommended") == Some(true)))
  {
    var p := PlanOf(requested, Receive(a.plan));
    PlanIsGood(requested, Receive(a.plan));
    ReservingAsks(p.id, p.body, a);
    var (asked, held) := Reserving(p.id, p.body, a);
    assert r in [Plan] + asked || (held.Held? && p.initialize && r == Initialize(p.id, p.body));
    assert r in asked || (held.Held? && p.initialize && r == Initialize(p.id, p.body));
  }

  lemma PlanIsGood(requested: Option<string>, r: Received)
    requires PlanOf(requested, r).Planned?
    ensures var p := PlanOf(requested, r);
            && r.Ok? && GetStr(r.value, "app_id") == Some(p.id) && p.id != "" &&
                (requested.Some? ==> requested.value == p.id)
            && InitializeFlag(r.value, "required").Some? && InitializeFlag(r.value, "recommended").Some?
            && p.body == MutationRequest(r.value)
            && (p.initialize <==>
                InitializeFlag(r.value, "required") == Some(true) ||
                InitializeFlag(r.value, "recommended") == Some(true))
  {
  }

  lemma ReservingAsks(id: string, body: Value, a: Answers)
    ensures forall r :: r in Reserving(id, body, a).0 ==>
              r == Reserve(id, body) || r == Inspect(id, GetStr(body, "environment"))
    ensures Reserving(id, body, a).1.Held? <==> Certain(id, body, a)
    ensures Reserve(id, body) == Reserving(id, body, a).0[0]
  {
  }

  predicate Initializes(asked: seq<Request>) {
    exists r :: r in asked && r.Initialize?
  }

  lemma ReservingDoesNotInitialize(id: string, body: Value, a: Answers)
    ensures !Initializes([Plan] + Reserving(id, body, a).0)
    ensures Initializes([Plan] + Reserving(id, body, a).0 + [Initialize(id, body)])
  {
    ReservingAsks(id, body, a);
    assert Initialize(id, body) in [Plan] + Reserving(id, body, a).0 + [Initialize(id, body)];
  }

  lemma CertainIsHeld(id: string, body: Value, a: Answers)
    ensures Reserving(id, body, a).1.Held? <==> Certain(id, body, a)
    ensures Certain(id, body, a) ==> Reserving(id, body, a).1 == Held(Receive(a.reserve).Err?)
  {
  }

  lemma InitializingNames(id: string, reconciled: bool, r: Reply)
    ensures var out := Initializing(id, reconciled, r); out.Created? ==> out == Created(id, reconciled, true)
  {
  }

  /** Success is never claimed without a certain reservation, and the report says truly
      whether it was adopted and whether the app was initialized. */
  lemma CreatedIsCertain(requested: Option<string>, a: Answers)
    requires Conversation(requested, a).1.Created?
    ensures var (asked, out) := Conversation(requested, a);
            && Certain(out.id, MutationRequest(Receive(a.plan).value), a)
            && (out.reconciled <==> Receive(a.reserve).Err?)
            && (out.initialized <==> Initializes(asked))
  {
    var p := PlanOf(requested, Receive(a.plan));
    PlanIsGood(requested, Receive(a.plan));
    CertainIsHeld(p.id, p.body, a);
    ReservingDoesNotInitialize(p.id, p.body, a);
    InitializingNames(p.id, Receive(a.reserve).Err?, a.initialize);
  }

  // ---------------------------------------------------------------- every outcome, exactly

  /** A plan is accepted exactly when it names a non-empty app, the requested one if any, and
      says of both initialize flags whether they are set. */
  lemma PlanIsAcceptedExactlyWhen(requested: Option<string>, plan: Value)
    ensures PlanOf(requested, Ok(plan)).Planned? <==>
              && GetStr(plan, "app_id").Some? && GetStr(plan, "app_id") != Some("")
              && (requested.Some? ==> GetStr(plan, "app_id") == requested)
              && Get(plan, "initialize").Some?
              && GetBool(Get(plan, "initialize").value, "required").Some?
              && GetBool(Get(plan, "initialize").value, "recommended").Some?
  {
  }

  /** The answer to initialize is for this app and says where it is. */
  predicate Confirms(r: Received, id: string) {
    && r.Ok? && GetStr(r.value, "app_id") == Some(id)
    && GetStr(r.value, "external_url").Some? && GetStr(r.value, "external_url") != Some("")
  }

  /** The answer to reserve is for this app. */
  predicate Grants(r: Received, id: string) {
    r.Ok? && GetStr(r.value, "app_id") == Some(id)
  }

  lemma CertainExactlyWhen(id: string, body: Value, a: Answers)
    requires id != ""
    ensures Certain(id, body, a) <==>
              || Grants(Receive(a.reserve), id)
              || (Receive(a.reserve).Err? && Receive(a.inspect).Ok? &&
                    IsMatchingIncompleteReservation(Receive(a.inspect).value, id, body))
  {
  }

  lemma ReservingOutcome(id: string, body: Value, a: Answers)
    requires !Certain(id, body, a)
    ensures Reserving(id, body, a).1 ==
            NotHeld(match Receive(a.reserve)
                    case Ok(_) => ReserveMismatched
                    case Err(f) => if f.Plain? || f.code == "network_error" then ReservationUnknown
                                   else ReservationRejected(f))
  {
  }

  lemma InitializingOutcome(id: string, reconciled: bool, r: Reply)
    requires id != ""
    ensures Initializing(id, reconciled, r) ==
            if Receive(r).Err? then InitializeFailed
            else if Confirms(Receive(r), id) then Created(id, reconciled, true) else InitializeMismatched
  {
  }

  /** For every sequence of answers, the outcome: without an accepted plan none; without a
      certain reservation the reserve's mismatch, doubt or rejection; with one, creation if
      the plan asks for nothing more, and otherwise what the answer to initialize says:
      creation exactly if it confirms this app, else a failure or a mismatch. */
  lemma OutcomeOfEveryRun(requested: Option<string>, a: Answers)
    ensures var p, out := PlanOf(requested, Receive(a.plan)), Conversation(requested, a).1;
            if p.Refused? then out == PlanRefused
            else if !Certain(p.id, p.body, a) then
              out == match Receive(a.reserve)
                     case Ok(_) => ReserveMismatched
                     case Err(f) => if f.Plain? || f.code == "network_error" then ReservationUnknown
                                    else ReservationRejected(f)
            else if !p.initialize then out == Created(p.id, Receive(a.reserve).Err?, false)
            else if Receive(a.initialize).Err? then out == InitializeFailed
            else if Confirms(Receive(a.initialize), p.id) then out == Created(p.id, Receive(a.reserve).Err?, true)
            else out == InitializeMismatched
  {
    var p := PlanOf(requested, Receive(a.plan));
    if p.Planned? {
      PlanIsGood(requested, Receive(a.plan));
      CertainIsHeld(p.id, p.body, a);
      if Certain(p.id, p.body, a) {
        InitializingOutcome(p.id, Receive(a.reserve).Err?, a.initialize);
      } else {
        ReservingOutcome(p.id, p.body, a);
      }
    }
  }

  /** How an answer is received: JSON behind a success status, and nothing else, is a value;
      behind an error status the error's own code counts, if there is one. */
  lemma ReceivedExactly(r: Reply)
    ensures Receive(r).Ok? <==> r.Answer? && r.success && r.body.Some?
    ensures Receive(r).Ok? ==> r.body == Some(Receive(r).value)
    ensures Receive(r) == Err(Plain) <==> r.Garbled? || (r.Answer? && r.success && r.body.None?)
    ensures r.Unsent? ==> Receive(r) == Err(Coded("network_error"))
  {
  }

  lemma ErrorCodesAreRead(body: Option<Value>, code: string)
    ensures body.Some? && Get(body.value, "error").Some? &&
            GetStr(Get(body.value, "error").value, "code") == Some(code) ==>
              Receive(Answer(false, body)) == Err(Coded(code))
    ensures body.None? || Get(body.value, "error").None? || GetStr(Get(body.value, "error").value, "code").None? ==>
              Receive(Answer(false, body)) == Err(Coded("control_plane_request_failed"))
  {
  }

  // ---------------------------------------------------------------- the body, member by member

  lemma SettingMember(plan: Value, from: string, to: string, key: string)
    ensures Find(Setting(plan, from, to), key) ==
            if key == to && RequiredString(plan, from).Some? then Some(Str(RequiredString(plan, from).value)) else None
  {
  }

  lemma FourMembers(a: seq<Field>, b: seq<Field>, c: seq<Field>, d: seq<Field>, key: string)
    ensures Find(a + b + c + d, key) ==
            if Find(a, key).Some? then Find(a, key) else if Find(b, key).Some? then Find(b, key)
            else if Find(c, key).Some? then Find(c, key) else Find(d, key)
  {
    FindAppend(a + b + c, d, key);
    FindAppend(a + b, c, key);
    FindAppend(a, b, key);
  }

  /** The non-empty text a plan gives for a setting. */
  function PlanText(plan: Value, from: string): Option<Value> {
    match GetStr(plan, from)
    case Some(s) => if s == "" then None else Some(Str(s))
    case None => None
  }

  /** Reserve and initialize carry the plan's environment, persistence, runtime class and, as
      `name`, its display name, each if it is a non-empty text; and nothing else. */
  lemma BodyMembers(plan: Value, key: string)
    ensures Get(MutationRequest(plan), key) ==
            if key == "environment" then PlanText(plan, "environment")
            else if key == "persistence" then PlanText(plan, "persistence")
            else if key == "runtime_class" then PlanText(plan, "runtime_class")
            else if key == "name" then PlanText(plan, "display_name")
            else None
  {
    FourMembers(Setting(plan, "environment", "environment"), Setting(plan, "persistence", "persistence"),
                Setting(plan, "runtime_class", "runtime_class"), Setting(plan, "display_name", "name"), key);
    SettingMember(plan, "environment", "environment", key);
    SettingMember(plan, "persistence", "persistence", key);
    SettingMember(plan, "runtime_class", "runtime_class", key);
    SettingMember(plan, "display_name", "name", key);
  }

  predicate ShowsPlanText(plan: Value, from: string, app: Value, to: string) {
    PlanText(plan, from).Some? ==> GetStr(app, to) == GetStr(plan, from)
  }

  lemma EchoesPlanText(plan: Value, from: string, app: Value, to: string)
    requires Get(MutationRequest(plan), to) == PlanText(plan, from)
    ensures Echoes(MutationRequest(plan), app, to) <==> ShowsPlanText(plan, from, app, to)
  {
  }

  /** An inspected app fits a plan exactly when it shows every text the plan gives. */
  lemma SettingsFitExactlyWhen(plan: Value, app: Value)
    ensures EchoesSettings(MutationRequest(plan), app) <==>
              && ShowsPlanText(plan, "environment", app, "environment")
              && ShowsPlanText(plan, "persistence", app, "persistence")
              && ShowsPlanText(plan, "runtime_class", app, "runtime_class")
              && ShowsPlanText(plan, "display_name", app, "name")
  {
    BodyMembers(plan, "environment");
    BodyMembers(plan, "persistence");
    BodyMembers(plan, "runtime_class");
    BodyMembers(plan, "name");
    EchoesPlanText(plan, "environment", app, "environment");
    EchoesPlanText(plan, "persistence", app, "persistence");
    EchoesPlanText(plan, "runtime_class", app, "runtime_class");
    EchoesPlanText(plan, "display_name", app, "name");
  }

  predicate CompleteJson(r: Reply) {
    r.Answer? && r.body.Some?
  }

  /** When a reserve counts as definitely rejected: exactly when an error status came with a
      body read in full, whose code is not the network one, and inspection finds no
      reservation of ours. */
  lemma RejectedExactlyWhen(requested: Option<string>, a: Answers)
    requires PlanOf(requested, Receive(a.plan)).Planned?
    ensures var p := PlanOf(requested, Receive(a.plan));
            Conversation(requested, a).1.ReservationRejected? <==>
              a.reserve.Answer? && !a.reserve.success && ErrorCode(a.reserve.body) != NETWORK_ERROR &&
                  !Certain(p.id, p.body, a)
  {
    var p := PlanOf(requested, Receive(a.plan));
    ReservingAsks(p.id, p.body, a);
    ReservingRejects(p.id, p.body, a);
  }

  predicate IsRejection(held: Reservation) {
    held.NotHeld? && held.outcome.ReservationRejected?
  }

  lemma ReservingRejects(id: string, body: Value, a: Answers)
    ensures IsRejection(Reserving(id, body, a).1) <==>
              Receive(a.reserve).Err? && !OutcomeIsUnknown(Receive(a.reserve).failure) && !Certain(id, body, a)
    ensures Receive(a.reserve).Err? && !OutcomeIsUnknown(Receive(a.reserve).failure) <==>
              a.reserve.Answer? && !a.reserve.success && ErrorCode(a.reserve.body) != NETWORK_ERROR
  {
  }

  /** So an answer that is no complete JSON is reported as unknown, with one exception: an
      error status whose body is something else, a gateway's HTML page for instance. */
  lemma IncompleteAnswerIsRejectedOnlyBehindAnErrorStatus(requested: Option<string>, a: Answers)
    requires PlanOf(requested, Receive(a.plan)).Planned? && !CompleteJson(a.reserve)
    ensures var p := PlanOf(requested, Receive(a.plan));
            Conversation(requested, a).1.ReservationRejected? <==>
                a.reserve == Answer(false, None) && !Certain(p.id, p.body, a)
  {
    RejectedExactlyWhen(requested, a);
  }

  /** The exception is real: behind any plan, such a page and an inspection that fails. */
  lemma GatewayPageIsReportedAsRejection(requested: Option<string>, plan: Reply, initialize: Reply)
    requires PlanOf(requested, Receive(plan)).Planned?
    ensures Conversation(requested, Answers(plan, Answer(false, None), Unsent, initialize)).1 ==
              ReservationRejected(Coded(REQUEST_FAILED))
    ensures !CompleteJson(Answer(false, None))
  {
    IncompleteAnswerIsRejectedOnlyBehindAnErrorStatus(requested,
        Answers(plan, Answer(false, None), Unsent, initialize));
  }
}
