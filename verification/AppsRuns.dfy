/** Many `apps create` runs against one control plane. The server reserves an id once and
    answers collision ever after; requests and answers may be lost and a run may be cut
    off at any point. */
module AppsRuns {
  import opened Wrappers
  import opened Json
  import opened AppsCreate

  // ---------------------------------------------------------------- the server

  datatype App = App(owner: string, publishers: set<string>, settings: seq<Field>, status: string,
                     revision: int, versions: seq<Value>)
  type Server = map<string, App>

  /** Anybody may look at an app; the answer says what they are to it. */
  function Role(app: App, caller: string): string {
    if caller == app.owner then "owner" else if caller in app.publishers then "publisher" else "viewer"
  }

  function AppFields(id: string, app: App, role: string): seq<Field> {
    [Field("app_id", Str(id)), Field("role", Str(role)), Field("route_status", Str(app.status)),
     Field("route_revision", Num(Integer(app.revision)))] + app.settings
  }

  function AppJson(id: string, app: App, role: string): Value {
    Obj([Field("ok", Bool(true)), Field("app", Obj(AppFields(id, app, role))), Field("versions", Arr(app.versions))])
  }

  function Acknowledged(id: string): Value {
    Obj([Field("app_id", Str(id)), Field("external_url", Str("https://" + id))])
  }

  function Problem(code: string): Value {
    Obj([Field("error", Obj([Field("code", Str(code))]))])
  }

  function Settings(body: Value): seq<Field> {
    if body.Obj? then body.fields else []
  }

  function NewApp(owner: string, body: Value): App {
    App(owner, {}, Settings(body), "idle", 1, [])
  }

  function Initialized(app: App): App {
    app.(status := "active", revision := app.revision + 1)
  }

  datatype Caller = Caller(name: string, requested: Option<string>, plan: Value)
  {
    function Planned(): Planned { PlanOf(requested, Ok(plan)) }
    function Id(): string requires Planned().Planned? { Planned().id }
    function Body(): Value requires Planned().Planned? { Planned().body }
  }

  /** One request, whatever it is and whoever sends it. An initialize may take effect or
      fail without one. */
  function Serve(s: Server, c: Caller, r: Request, takesEffect: bool): (Server, Reply) {
    match r
    case Plan => (s, Answer(true, Some(c.plan)))
    case Reserve(id, body) =>
      if id in s then (s, Answer(false, Some(Problem("app_id_collision"))))
      else (s[id := NewApp(c.name, body)], Answer(true, Some(Acknowledged(id))))
    case Inspect(id, _) =>
      if id !in s then (s, Answer(false, Some(Problem("not_found"))))
      else (s, Answer(true, Some(AppJson(id, s[id], Role(s[id], c.name)))))
    case Initialize(id, _) =>
      if id !in s || !takesEffect then (s, Answer(false, Some(Problem("kubernetes_apply_failed"))))
      else (s[id := Initialized(s[id])], Answer(true, Some(Acknowledged(id))))
  }

  // ---------------------------------------------------------------- one run on the server

  /** A lost request never reaches the server; a lost answer arrives as something unusable. */
  datatype Fate = Delivered | RequestLost | AnswerLost(instead: Reply)

  predicate Plausible(f: Fate) {
    f.AnswerLost? ==> Receive(f.instead).Err?
  }

  datatype Fates = Fates(plan: Fate, reserve: Fate, inspect: Fate, initialize: Fate, takesEffect: bool)
  {
    predicate AllPlausible() {
      Plausible(plan) && Plausible(reserve) && Plausible(inspect) && Plausible(initialize)
    }

    function Of(r: Request): Fate {
      match r
      case Plan => plan
      case Reserve(_, _) => reserve
      case Inspect(_, _) => inspect
      case Initialize(_, _) => initialize
    }
  }

  /** What the server and the client each have after the exchange. */
  function Exchange(s: Server, c: Caller, r: Request, f: Fates): (Server, Reply) {
    match f.Of(r)
    case Delivered => Serve(s, c, r, f.takesEffect)
    case RequestLost => (s, Unsent)
    case AnswerLost(instead) => (Serve(s, c, r, f.takesEffect).0, instead)
  }

  function Answered(a: Answers, r: Request, reply: Reply): Answers {
    match r
    case Plan => a.(plan := reply)
    case Reserve(_, _) => a.(reserve := reply)
    case Inspect(_, _) => a.(inspect := reply)
    case Initialize(_, _) => a.(initialize := reply)
  }

  /** A run in progress: the server, the answers so far, the requests they answer, and the
      server as the last inspection found it. */
  datatype Progress = Progress(server: Server, answers: Answers, log: seq<Request>, looked: Option<Server>)

  const NO_ANSWERS := Answers(Unsent, Unsent, Unsent, Unsent)

  function Asks(p: Progress, c: Caller): seq<Request> {
    Conversation(c.requested, p.answers).0
  }

  function Outcome(p: Progress, c: Caller): Outcome {
    Conversation(c.requested, p.answers).1
  }

  /** The client's next request, given the answers it has. */
  function Next(p: Progress, c: Caller): Option<Request> {
    if |p.log| < |Asks(p, c)| then Some(Asks(p, c)[|p.log|]) else None
  }

  function Asked(p: Progress, c: Caller, r: Request, f: Fates): Progress {
    var (server, reply) := Exchange(p.server, c, r, f);
    Progress(server, Answered(p.answers, r, reply), p.log + [r], if r.Inspect? then Some(p.server) else p.looked)
  }

  function Advance(p: Progress, c: Caller, f: Fates): Progress {
    match Next(p, c)
    case None => p
    case Some(r) => Asked(p, c, r, f)
  }

  function Steps(c: Caller, f: Fates): Progress -> Progress {
    p => Advance(p, c, f)
  }

  function Iterate(step: Progress -> Progress, p: Progress, n: nat): Progress {
    if n == 0 then p else step(Iterate(step, p, n - 1))
  }

  function Start(s: Server): Progress {
    Progress(s, NO_ANSWERS, [], None)
  }

  /** A run after at most `n` requests. */
  function After(s: Server, c: Caller, f: Fates, n: nat): Progress {
    Iterate(Steps(c, f), Start(s), n)
  }

  lemma {:induction false} Invariantly(step: Progress -> Progress, inv: (nat, Progress) -> bool, p: Progress, n: nat)
    requires inv(0, p) && forall k: nat, q :: inv(k, q) ==> inv(k + 1, step(q))
    ensures inv(n, Iterate(step, p, n))
  {
    if n > 0 {
      Invariantly(step, inv, p, n - 1);
    }
  }

  /** What a run asks, spelled out. */
  function Questions(p: Planned, a: Answers): seq<Request> {
    if p.Refused? then [Plan]
    else
      var reserve, inspect, initialize := Reserve(p.id, p.body), Inspect(p.id, GetStr(p.body, "environment")),
          Initialize(p.id, p.body);
      var goes := p.initialize && Certain(p.id, p.body, a);
      if Receive(a.reserve).Ok? then (if goes then [Plan, reserve, initialize] else [Plan, reserve])
      else if goes then [Plan, reserve, inspect, initialize] else [Plan, reserve, inspect]
  }

  lemma ConversationAsksQuestions(requested: Option<string>, a: Answers)
    ensures Conversation(requested, a).0 == Questions(PlanOf(requested, Receive(a.plan)), a)
  {
    var p := PlanOf(requested, Receive(a.plan));
    if p.Planned? {
      ReservingAsks(p.id, p.body, a);
      var asked := Reserving(p.id, p.body, a).0;
      if Receive(a.reserve).Ok? {
        assert asked == [Reserve(p.id, p.body)];
      } else {
        assert asked == [Reserve(p.id, p.body), Inspect(p.id, GetStr(p.body, "environment"))];
      }
    }
  }

  lemma QuestionsAreCausal(p: Planned, a: Answers, b: Answers, k: nat)
    requires k < |Questions(p, a)|
    requires k > 1 ==> a.reserve == b.reserve
    requires k > 2 ==> a.inspect == b.inspect
    requires Questions(p, a)[k].Initialize? ==> a.reserve == b.reserve && a.inspect == b.inspect
    ensures Questions(p, a)[..k + 1] <= Questions(p, b)
  {
  }

  lemma QuestionKinds(p: Planned, a: Answers, k: nat)
    requires k < |Questions(p, a)|
    ensures var r := Questions(p, a)[k]; (r.Plan? <==> k == 0) && (r.Reserve? <==> k == 1) && (r.Inspect? ==> k == 2)
  {
  }

  lemma AnsweringKeepsQuestions(p: Planned, a: Answers, k: nat, reply: Reply)
    requires 0 < k < |Questions(p, a)|
    ensures var b := Answered(a, Questions(p, a)[k], reply);
            b.plan == a.plan && Questions(p, a)[..k + 1] <= Questions(p, b)
  {
    QuestionKinds(p, a, k);
    QuestionsAreCausal(p, a, Answered(a, Questions(p, a)[k], reply), k);
  }

  /** A request depends on the answers to earlier ones only. */
  lemma RequestsAreCausal(requested: Option<string>, a: Answers, k: nat, reply: Reply)
    requires k < |Conversation(requested, a).0|
    ensures var asked := Conversation(requested, a).0;
            asked[..k + 1] <= Conversation(requested, Answered(a, asked[k], reply)).0
  {
    var asked := Conversation(requested, a).0;
    var b := Answered(a, asked[k], reply);
    ConversationAsksQuestions(requested, a);
    ConversationAsksQuestions(requested, b);
    if k == 0 {
      QuestionKinds(PlanOf(requested, Receive(a.plan)), a, 0);
      QuestionKinds(PlanOf(requested, Receive(b.plan)), b, 0);
    } else {
      AnsweringKeepsQuestions(PlanOf(requested, Receive(a.plan)), a, k, reply);
    }
  }

  // ---------------------------------------------------------------- what the answers show

  lemma FindInFour(f0: Field, f1: Field, f2: Field, f3: Field, key: string)
    ensures Find([f0, f1, f2, f3], key) ==
            if f0.key == key then Some(f0.value) else if f1.key == key then Some(f1.value)
            else if f2.key == key then Some(f2.value) else if f3.key == key then Some(f3.value) else None
  {
    assert [f0, f1, f2, f3] == [f0] + [f1] + [f2] + [f3];
    FindAppend([f0] + [f1] + [f2], [f3], key);
    FindAppend([f0] + [f1], [f2], key);
    FindAppend([f0], [f1], key);
    assert forall f: Field :: Find([f], key) == if f.key == key then Some(f.value) else None;
  }

  lemma AppMember(id: string, app: App, role: string, key: string)
    ensures Find(AppFields(id, app, role), key) ==
            if key == "app_id" then Some(Str(id)) else if key == "role" then Some(Str(role))
            else if key == "route_status" then Some(Str(app.status))
            else if key == "route_revision" then Some(Num(Integer(app.revision))) else Find(app.settings, key)
  {
    var head := [Field("app_id", Str(id)), Field("role", Str(role)), Field("route_status", Str(app.status)),
                 Field("route_revision", Num(Integer(app.revision)))];
    FindInFour(head[0], head[1], head[2], head[3], key);
    FindAppend(head, app.settings, key);
  }

  lemma ResponseMembers(id: string, app: App, role: string)
    ensures GetBool(AppJson(id, app, role), "ok") == Some(true)
    ensures Get(AppJson(id, app, role), "app") == Some(Obj(AppFields(id, app, role)))
    ensures GetArr(AppJson(id, app, role), "versions") == Some(app.versions)
  {
    var fields := AppJson(id, app, role).fields;
    assert fields[1..][1..] == [fields[2]] && fields[1..][0] == fields[1];
    assert Find(fields[1..][1..], "versions") == Some(Arr(app.versions));
    assert Find(fields[1..], "versions") == Some(Arr(app.versions));
  }

  /** An app that only a reservation has touched. */
  ghost predicate Pristine(app: App) {
    app.status == "idle" && app.revision == 1 && app.versions == []
  }

  predicate NoLifecycleMarks(settings: seq<Field>) {
    AbsentOrEmptyText(Find(settings, "active_version_id")) && AbsentOrEmptyText(Find(settings, "version_id")) &&
    AbsentOrEmptyText(Find(settings, "deleted_at"))
  }

  lemma OwnIdleApp(id: string, app: App, role: string)
    ensures IsOwnIdleApp(Obj(AppFields(id, app, role)), id) <==>
            role == "owner" && app.status == "idle" && app.revision == 1 && NoLifecycleMarks(app.settings)
  {
    ServerMembers(id, app, role);
    SettingPassesThrough(id, app, role, "active_version_id");
    SettingPassesThrough(id, app, role, "version_id");
    SettingPassesThrough(id, app, role, "deleted_at");
  }

  lemma ServerMembers(id: string, app: App, role: string)
    ensures var v := Obj(AppFields(id, app, role));
            && GetStr(v, "app_id") == Some(id) && GetStr(v, "role") == Some(role)
            && GetStr(v, "route_status") == Some(app.status) &&
                Get(v, "route_revision") == Some(Num(Integer(app.revision)))
  {
    AppMember(id, app, role, "app_id");
    AppMember(id, app, role, "role");
    AppMember(id, app, role, "route_status");
    AppMember(id, app, role, "route_revision");
  }

  lemma SettingPassesThrough(id: string, app: App, role: string, key: string)
    requires key != "app_id" && key != "role" && key != "route_status" && key != "route_revision"
    ensures Get(Obj(AppFields(id, app, role)), key) == Find(app.settings, key)
  {
    AppMember(id, app, role, key);
  }

  lemma SettingsShow(id: string, app: App, role: string, body: Value)
    ensures EchoesSettings(body, Obj(AppFields(id, app, role))) <==> EchoesSettings(body, Obj(app.settings))
  {
    SettingShows(id, app, role, body, "environment");
    SettingShows(id, app, role, body, "persistence");
    SettingShows(id, app, role, body, "runtime_class");
    SettingShows(id, app, role, body, "name");
  }

  lemma SettingShows(id: string, app: App, role: string, body: Value, key: string)
    requires key != "app_id" && key != "role" && key != "route_status" && key != "route_revision"
    ensures Echoes(body, Obj(AppFields(id, app, role)), key) <==> Echoes(body, Obj(app.settings), key)
  {
    SettingPassesThrough(id, app, role, key);
  }

  /** Inspection accepts exactly the caller's own idle, revision-1, version-free app with
      these settings. */
  lemma MatchesExactlyPristine(id: string, app: App, caller: string, body: Value)
    ensures IsMatchingIncompleteReservation(AppJson(id, app, Role(app, caller)), id, body) <==>
            app.owner == caller && Pristine(app) && EchoesSettings(body, Obj(app.settings)) &&
            NoLifecycleMarks(app.settings)
  {
    var role := Role(app, caller);
    assert role == "owner" <==> app.owner == caller by {
      assert |"publisher"| != |"owner"| && |"viewer"| != |"owner"|;
    }
    ResponseMembers(id, app, role);
    OwnIdleApp(id, app, role);
    SettingsShow(id, app, role, body);
  }

  // ---------------------------------------------------------------- a run against the server

  lemma AcknowledgedNames(id: string)
    ensures GetStr(Acknowledged(id), "app_id") == Some(id) && RequiredString(Acknowledged(id), "external_url").Some?
  {
    var fields := Acknowledged(id).fields;
    GetOfTwo(fields[0], fields[1]);
    assert fields == [fields[0], fields[1]];
    assert Get(Acknowledged(id), "external_url") == Some(Str("https://" + id));
    assert "https://" + id != "";
  }

  lemma BodyHasNoMarks(plan: Value)
    ensures NoLifecycleMarks(MutationRequest(plan).fields)
  {
    var a, b, c, d := Setting(plan, "environment", "environment"), Setting(plan, "persistence", "persistence"),
                      Setting(plan, "runtime_class", "runtime_class"), Setting(plan, "display_name", "name");
    forall key | key in {"active_version_id", "version_id", "deleted_at"}
      ensures Find(a + b + c + d, key) == None
    {
      FindAppend(a + b + c, d, key);
      FindAppend(a + b, c, key);
      FindAppend(a, b, key);
    }
  }

  /** The log of a run in progress: the client's requests so far, given its answers. */
  ghost predicate Follows(p: Progress, c: Caller, n: nat) {
    IsLog(p.log, Asks(p, c), n)
  }

  ghost predicate IsLog(log: seq<Request>, asks: seq<Request>, n: nat) {
    log <= asks && |log| <= n && (|log| < |asks| ==> |log| == n)
  }

  lemma LogGrows(log: seq<Request>, asks: seq<Request>, later: seq<Request>, n: nat)
    requires IsLog(log, asks, n) && |log| < |asks| && asks[..|log| + 1] <= later
    ensures IsLog(log + [asks[|log|]], later, n + 1)
  {
    assert log + [asks[|log|]] == asks[..|log| + 1];
  }

  lemma StartFollows(p: Progress, c: Caller)
    requires p.log == []
    ensures Follows(p, c, 0)
  {
  }

  lemma AdvanceFollows(p: Progress, c: Caller, f: Fates, n: nat)
    requires Follows(p, c, n)
    ensures Follows(Advance(p, c, f), c, n + 1)
  {
    match Next(p, c)
    case None =>
    case Some(r) =>
      var reply := Exchange(p.server, c, r, f).1;
      RequestsAreCausal(c.requested, p.answers, |p.log|, reply);
      LogGrows(p.log, Asks(p, c), Asks(Advance(p, c, f), c), n);
  }

  lemma LogFollowsConversation(s: Server, c: Caller, f: Fates, n: nat)
    ensures Follows(After(s, c, f, n), c, n)
  {
    var inv := (k: nat, q: Progress) => Follows(q, c, k);
    StartFollows(Start(s), c);
    forall k: nat, q | inv(k, q) ensures inv(k + 1, Steps(c, f)(q)) {
      AdvanceFollows(q, c, f, k);
    }
    Invariantly(Steps(c, f), inv, Start(s), n);
  }

  /** After four requests a run is over, and what the server was asked is the log of the
      client given the answers it got. */
  lemma RunsEnd(s: Server, c: Caller, f: Fates, n: nat)
    requires n >= 4
    ensures var p := After(s, c, f, n); Next(p, c).None? && p.log == Asks(p, c)
  {
    LogFollowsConversation(s, c, f, n);
    ConversationAsksQuestions(c.requested, After(s, c, f, n).answers);
  }

  predicate KnowsPlan(a: Answers, c: Caller) {
    Receive(a.plan).Err? || a.plan == Answer(true, Some(c.plan))
  }

  lemma AdvanceKnowsPlan(p: Progress, c: Caller, f: Fates)
    requires KnowsPlan(p.answers, c) && Plausible(f.plan)
    ensures KnowsPlan(Advance(p, c, f).answers, c)
  {
  }

  lemma RunKnowsPlan(s: Server, c: Caller, f: Fates, n: nat)
    requires Plausible(f.plan)
    ensures KnowsPlan(After(s, c, f, n).answers, c)
  {
    var inv := (k: nat, q: Progress) => KnowsPlan(q.answers, c);
    forall k: nat, q | inv(k, q) ensures inv(k + 1, Steps(c, f)(q)) {
      AdvanceKnowsPlan(q, c, f);
    }
    Invariantly(Steps(c, f), inv, Start(s), n);
  }

  /** Whatever the client asks next, after the plan, it asks for the planned id. */
  lemma RequestIsOwn(p: Progress, c: Caller)
    requires KnowsPlan(p.answers, c) && Next(p, c).Some? && !Next(p, c).value.Plan?
    ensures c.Planned().Planned? && Next(p, c).value.id == c.Id()
    ensures Next(p, c).value.Initialize? ==> c.Planned().initialize && Certain(c.Id(), c.Body(), p.answers)
    ensures !Next(p, c).value.Inspect? ==> Next(p, c).value.body == c.Body()
  {
    RequestsAreJustified(c.requested, p.answers, Next(p, c).value);
    PlanIsGood(c.requested, Ok(c.plan));
  }

  // ---------------------------------------------------------------- at most one reservation

  /** Of id `only` at most one app is added; every app that is there keeps its owner,
      settings and versions; all other ids are untouched. */
  ghost predicate OnlyAdds(s: Server, t: Server, only: string) {
    && s.Keys <= t.Keys <= s.Keys + {only}
    && (forall id :: id in s ==> t[id].owner == s[id].owner && t[id].settings == s[id].settings)
    && (forall id :: id in s ==> t[id].versions == s[id].versions)
    && (forall id :: id in s && id != only ==> t[id] == s[id])
  }

  lemma ExchangeServesOrNot(s: Server, c: Caller, r: Request, f: Fates)
    ensures Exchange(s, c, r, f).0 == s || Exchange(s, c, r, f).0 == Serve(s, c, r, f.takesEffect).0
  {
  }

  lemma ServingOnlyAdds(s: Server, c: Caller, r: Request, f: Fates)
    ensures r.Plan? ==> Exchange(s, c, r, f).0 == s
    ensures !r.Plan? ==> OnlyAdds(s, Exchange(s, c, r, f).0, r.id)
  {
    var t := Exchange(s, c, r, f).0;
    ExchangeServesOrNot(s, c, r, f);
    match r
    case Reserve(id, body) => assert t == s || t == s[id := NewApp(c.name, body)];
    case Initialize(id, _) => assert t == s || (id in s && t == s[id := Initialized(s[id])]);
    case _ =>
  }

  /** No app replaced, no other id touched, at most one app added, of the planned id;
      without an acceptable plan nothing changed. */
  ghost predicate AddsPlanned(s: Server, t: Server, c: Caller) {
    if c.Planned().Planned? then OnlyAdds(s, t, c.Id()) else t == s
  }

  lemma AdvanceAddsPlanned(p: Progress, c: Caller, f: Fates)
    requires KnowsPlan(p.answers, c)
    ensures AddsPlanned(p.server, Advance(p, c, f).server, c)
  {
    match Next(p, c)
    case None =>
    case Some(r) =>
      ServingOnlyAdds(p.server, c, r, f);
      if !r.Plan? {
        RequestIsOwn(p, c);
      }
  }

  lemma AddsTwice(s: Server, t: Server, u: Server, c: Caller)
    requires AddsPlanned(s, t, c) && AddsPlanned(t, u, c)
    ensures AddsPlanned(s, u, c)
  {
  }

  /** However a run goes and wherever it is cut off, the server serving whatever it is
      asked, it adds at most the planned app. */
  lemma RunOnlyAdds(s: Server, c: Caller, f: Fates, n: nat)
    requires Plausible(f.plan)
    ensures AddsPlanned(s, After(s, c, f, n).server, c)
  {
    var inv := (k: nat, q: Progress) => KnowsPlan(q.answers, c) && AddsPlanned(s, q.server, c);
    forall k: nat, q | inv(k, q) ensures inv(k + 1, Steps(c, f)(q)) {
      AdvanceKnowsPlan(q, c, f);
      AdvanceAddsPlanned(q, c, f);
      AddsTwice(s, q.server, Advance(q, c, f).server, c);
    }
    Invariantly(Steps(c, f), inv, Start(s), n);
  }

  datatype Attempt = Attempt(fates: Fates, stop: nat)

  function AfterAttempts(s: Server, c: Caller, attempts: seq<Attempt>): Server
    decreases |attempts|
  {
    if attempts == [] then s
    else AfterAttempts(After(s, c, attempts[0].fates, attempts[0].stop).server, c, attempts[1..])
  }

  predicate AllPlausible(attempts: seq<Attempt>) {
    forall i :: 0 <= i < |attempts| ==> attempts[i].fates.AllPlausible()
  }

  /** So over any number of runs with the same arguments and plan at most one reservation is
      made, and whoever holds the id keeps it. */
  lemma {:induction false} AtMostOneReservation(s: Server, c: Caller, attempts: seq<Attempt>)
    requires AllPlausible(attempts)
    ensures AddsPlanned(s, AfterAttempts(s, c, attempts), c)
    decreases |attempts|
  {
    if attempts != [] {
      var t := After(s, c, attempts[0].fates, attempts[0].stop).server;
      RunOnlyAdds(s, c, attempts[0].fates, attempts[0].stop);
      AtMostOneReservation(t, c, attempts[1..]);
      AddsTwice(s, t, AfterAttempts(t, c, attempts[1..]), c);
    }
  }

  // ---------------------------------------------------------------- only the caller's own

  /** What inspection lets this caller adopt. */
  ghost predicate Adoptable(c: Caller, app: App)
    requires c.Planned().Planned?
  {
    app.owner == c.name && Pristine(app) && EchoesSettings(c.Body(), Obj(app.settings)) &&
        NoLifecycleMarks(app.settings)
  }

  ghost predicate HasAdoptable(s: Server, c: Caller)
    requires c.Planned().Planned?
  {
    c.Id() in s && Adoptable(c, s[c.Id()])
  }

  predicate Owns(s: Server, c: Caller)
    requires c.Planned().Planned?
  {
    c.Id() in s && s[c.Id()].owner == c.name
  }

  /** The answer to reserve names the planned id. */
  predicate Names(a: Reply, c: Caller)
    requires c.Planned().Planned?
  {
    Receive(a).Ok? && RequiredString(Receive(a).value, "app_id") == Some(c.Id())
  }

  /** The answer to inspection passes the client's test. */
  predicate Vouches(a: Reply, c: Caller)
    requires c.Planned().Planned?
  {
    Receive(a).Ok? && IsMatchingIncompleteReservation(Receive(a).value, c.Id(), c.Body())
  }

  lemma ReserveNamesOwn(s: Server, c: Caller, f: Fates)
    requires c.Planned().Planned? && Plausible(f.reserve)
    ensures var (t, reply) := Exchange(s, c, Reserve(c.Id(), c.Body()), f);
            Names(reply, c) ==> Owns(t, c)
  {
  }

  /** Nobody is refused a look, so it is the client's test that tells whose the app is. */
  lemma LookPassesIffAdoptable(s: Server, c: Caller, environment: Option<string>)
    requires c.Planned().Planned?
    ensures Vouches(Serve(s, c, Inspect(c.Id(), environment), true).1, c) <==> HasAdoptable(s, c)
  {
    if c.Id() in s {
      var answer := AppJson(c.Id(), s[c.Id()], Role(s[c.Id()], c.name));
      MatchesExactlyPristine(c.Id(), s[c.Id()], c.name, c.Body());
      assert Serve(s, c, Inspect(c.Id(), environment), true).1 == Answer(true, Some(answer));
    } else {
      assert Receive(Serve(s, c, Inspect(c.Id(), environment), true).1).Err?;
    }
  }

  lemma InspectionVouchesForAdoptable(s: Server, c: Caller, environment: Option<string>, f: Fates)
    requires c.Planned().Planned? && Plausible(f.inspect)
    ensures Vouches(Exchange(s, c, Inspect(c.Id(), environment), f).1, c) ==> HasAdoptable(s, c)
  {
    LookPassesIffAdoptable(s, c, environment);
    match f.inspect
    case Delivered =>
      assert Exchange(s, c, Inspect(c.Id(), environment), f).1 == Serve(s, c, Inspect(c.Id(), environment), true).1;
    case _ =>
  }

  ghost predicate BelievesRightly(p: Progress, c: Caller)
    requires c.Planned().Planned?
  {
    && (Names(p.answers.reserve, c) ==> Owns(p.server, c))
    && (Vouches(p.answers.inspect, c) ==> Owns(p.server, c) && p.looked.Some? && HasAdoptable(p.looked.value, c))
  }

  lemma AskedBelievesRightly(p: Progress, c: Caller, r: Request, f: Fates)
    requires c.Planned().Planned? && f.AllPlausible() && BelievesRightly(p, c)
    requires !r.Plan? ==> r.id == c.Id() && (!r.Inspect? ==> r.body == c.Body())
    ensures BelievesRightly(Asked(p, c, r, f), c)
  {
    ServingOnlyAdds(p.server, c, r, f);
    match r
    case Reserve(_, _) => ReserveNamesOwn(p.server, c, f);
    case Inspect(_, environment) => InspectionVouchesForAdoptable(p.server, c, environment, f);
    case _ =>
  }

  lemma AdvanceBelievesRightly(p: Progress, c: Caller, f: Fates)
    requires c.Planned().Planned? && f.AllPlausible() && BelievesRightly(p, c) && KnowsPlan(p.answers, c)
    ensures BelievesRightly(Advance(p, c, f), c)
  {
    match Next(p, c)
    case None =>
    case Some(r) =>
      if !r.Plan? {
        RequestIsOwn(p, c);
      }
      AskedBelievesRightly(p, c, r, f);
  }

  lemma RunBelievesRightly(s: Server, c: Caller, f: Fates, n: nat)
    requires c.Planned().Planned? && f.AllPlausible()
    ensures BelievesRightly(After(s, c, f, n), c)
  {
    var inv := (k: nat, q: Progress) => KnowsPlan(q.answers, c) && BelievesRightly(q, c);
    forall k: nat, q | inv(k, q) ensures inv(k + 1, Steps(c, f)(q)) {
      AdvanceKnowsPlan(q, c, f);
      AdvanceBelievesRightly(q, c, f);
    }
    Invariantly(Steps(c, f), inv, Start(s), n);
  }

  lemma CertainOwns(p: Progress, c: Caller)
    requires c.Planned().Planned? && BelievesRightly(p, c) && Certain(c.Id(), c.Body(), p.answers)
    ensures Owns(p.server, c) && (Receive(p.answers.reserve).Err? ==> Vouches(p.answers.inspect, c))
  {
  }

  /** Whatever was there before, whoever may look at it and whatever is lost: initialize is
      only ever asked for an app the caller owns, success is only claimed for one, and an
      app that is adopted was, when it was looked at, the caller's own, idle, at revision 1
      and without versions. */
  lemma OnlyOwnReservationsAreUsed(s: Server, c: Caller, f: Fates, n: nat)
    requires f.AllPlausible()
    ensures var p := After(s, c, f, n);
            && (Next(p, c).Some? && Next(p, c).value.Initialize? ==> c.Planned().Planned? && Owns(p.server, c))
            && (Outcome(p, c).Created? ==> c.Planned().Planned? && Outcome(p, c).id == c.Id() && Owns(p.server, c))
            && (Outcome(p, c).Created? && Outcome(p, c).reconciled ==>
                p.looked.Some? && HasAdoptable(p.looked.value, c))
  {
    var p := After(s, c, f, n);
    RunKnowsPlan(s, c, f, n);
    if Next(p, c).Some? && Next(p, c).value.Initialize? {
      RequestIsOwn(p, c);
      RunBelievesRightly(s, c, f, n);
      CertainOwns(p, c);
    }
    if Outcome(p, c).Created? {
      CreatedIsPlanned(p, c);
      RunBelievesRightly(s, c, f, n);
      CertainOwns(p, c);
    }
  }

  lemma CreatedIsPlanned(p: Progress, c: Caller)
    requires KnowsPlan(p.answers, c) && Outcome(p, c).Created?
    ensures c.Planned().Planned? && Outcome(p, c).id == c.Id() && Certain(c.Id(), c.Body(), p.answers)
    ensures Outcome(p, c).reconciled <==> Receive(p.answers.reserve).Err?
  {
    CreatedIsCertain(c.requested, p.answers);
    PlanIsGood(c.requested, Ok(c.plan));
  }

  // ---------------------------------------------------------------- a run that loses nothing

  const CLEAR := Fates(Delivered, Delivered, Delivered, Delivered, true)

  lemma QuestionsOf(p: Progress, c: Caller)
    requires c.Planned().Planned? && p.answers.plan == Answer(true, Some(c.plan))
    ensures Asks(p, c) == Questions(c.Planned(), p.answers)
  {
    ConversationAsksQuestions(c.requested, p.answers);
  }

  lemma ClearAsk(p: Progress, c: Caller)
    requires c.Planned().Planned? && p.answers.plan == Answer(true, Some(c.plan))
    ensures var asks := Questions(c.Planned(), p.answers);
            Advance(p, c, CLEAR) == if |p.log| < |asks| then Asked(p, c, asks[|p.log|], CLEAR) else p
  {
    QuestionsOf(p, c);
  }

  lemma ClearPlan(s: Server, c: Caller)
    ensures After(s, c, CLEAR, 1) == Asked(Start(s), c, Plan, CLEAR)
  {
    ConversationAsksQuestions(c.requested, NO_ANSWERS);
    assert After(s, c, CLEAR, 0) == Start(s);
  }

  function ReserveOf(c: Caller): Request
    requires c.Planned().Planned?
  {
    Reserve(c.Id(), c.Body())
  }

  function InspectOf(c: Caller): Request
    requires c.Planned().Planned?
  {
    Inspect(c.Id(), GetStr(c.Body(), "environment"))
  }

  function InitializeOf(c: Caller): Request
    requires c.Planned().Planned?
  {
    Initialize(c.Id(), c.Body())
  }

  lemma ClearReserve(s: Server, c: Caller)
    requires c.Planned().Planned?
    ensures After(s, c, CLEAR, 2) == Asked(After(s, c, CLEAR, 1), c, ReserveOf(c), CLEAR)
    ensures var p := After(s, c, CLEAR, 2); p.answers.plan == Answer(true, Some(c.plan)) && |p.log| == 2
    ensures var p := After(s, c, CLEAR, 2); (p.server, p.answers.reserve) == Serve(s, c, ReserveOf(c), true)
  {
    ClearPlan(s, c);
    ClearAsk(After(s, c, CLEAR, 1), c);
  }

  lemma OutcomeOf(p: Progress, c: Caller)
    requires c.Planned().Planned? && p.answers.plan == Answer(true, Some(c.plan))
    requires Certain(c.Id(), c.Body(), p.answers)
    requires Receive(p.answers.initialize) == Ok(Acknowledged(c.Id())) || !c.Planned().initialize
    ensures Outcome(p, c) == Created(c.Id(), Receive(p.answers.reserve).Err?, c.Planned().initialize)
  {
    AcknowledgedNames(c.Id());
    ReservingAsks(c.Id(), c.Body(), p.answers);
    CertainIsHeld(c.Id(), c.Body(), p.answers);
  }

  /** The last step of a run that holds its reservation. */
  lemma ClearFinish(p: Progress, c: Caller)
    requires c.Planned().Planned? && p.answers.plan == Answer(true, Some(c.plan))
    requires Certain(c.Id(), c.Body(), p.answers) && c.Id() in p.server
    requires |p.log| == if Receive(p.answers.reserve).Ok? then 2 else 3
    ensures var q, goes := Advance(p, c, CLEAR), c.Planned().initialize;
            && q.server == (if goes then p.server[c.Id() := Initialized(p.server[c.Id()])] else p.server)
            && Outcome(q, c) == Created(c.Id(), Receive(p.answers.reserve).Err?, goes)
            && Advance(q, c, CLEAR) == q
  {
    ClearAsk(p, c);
    var q := Advance(p, c, CLEAR);
    assert q == if c.Planned().initialize then Asked(p, c, InitializeOf(c), CLEAR) else p;
    OutcomeOf(q, c);
    ClearAsk(q, c);
  }

  lemma FreeIdIsReserved(s: Server, c: Caller)
    requires c.Planned().Planned? && c.Id() !in s
    ensures var (t, reply) := Serve(s, c, ReserveOf(c), true);
            && t == s[c.Id() := NewApp(c.name, c.Body())]
            && Receive(reply).Ok? && Names(reply, c)
  {
    AcknowledgedNames(c.Id());
    PlanIsGood(c.requested, Ok(c.plan));
  }

  /** From a free id: reserved, and initialized if the plan says so. */
  lemma ClearRunOnFreeId(s: Server, c: Caller)
    requires c.Planned().Planned? && c.Id() !in s
    ensures var p, goes, app := After(s, c, CLEAR, 4), c.Planned().initialize, NewApp(c.name, c.Body());
            && Outcome(p, c) == Created(c.Id(), false, goes)
            && p.server == s[c.Id() := if goes then Initialized(app) else app]
  {
    ClearReserve(s, c);
    FreeIdIsReserved(s, c);
    var p := After(s, c, CLEAR, 2);
    ClearFinish(p, c);
    assert After(s, c, CLEAR, 3) == Advance(p, c, CLEAR);
    assert After(s, c, CLEAR, 4) == Advance(After(s, c, CLEAR, 3), c, CLEAR);
  }

  lemma CollisionIsKnown()
    ensures Receive(Answer(false, Some(Problem("app_id_collision")))) == Err(Coded("app_id_collision"))
    ensures !OutcomeIsUnknown(Coded("app_id_collision"))
  {
    assert "app_id_collision"[0] != NETWORK_ERROR[0];
  }

  /** From a taken id: inspected. */
  lemma ClearInspect(s: Server, c: Caller)
    requires c.Planned().Planned? && c.Id() in s
    ensures var p := After(s, c, CLEAR, 3);
            && p.server == s && |p.log| == 3 && p.answers.plan == Answer(true, Some(c.plan))
            && Receive(p.answers.reserve) == Err(Coded("app_id_collision"))
            && (Certain(c.Id(), c.Body(), p.answers) <==> HasAdoptable(s, c))
  {
    ClearReserve(s, c);
    CollisionIsKnown();
    var p := After(s, c, CLEAR, 2);
    ClearAsk(p, c);
    assert After(s, c, CLEAR, 3) == Asked(p, c, InspectOf(c), CLEAR);
    LookPassesIffAdoptable(s, c, GetStr(c.Body(), "environment"));
  }

  lemma ClearCollision(p: Progress, c: Caller)
    requires c.Planned().Planned? && p.answers.plan == Answer(true, Some(c.plan)) && |p.log| == 3
    requires Receive(p.answers.reserve) == Err(Coded("app_id_collision"))
    requires !Certain(c.Id(), c.Body(), p.answers)
    ensures Advance(p, c, CLEAR) == p && Outcome(p, c) == ReservationRejected(Coded("app_id_collision"))
  {
    ClearAsk(p, c);
    CollisionIsKnown();
  }

  lemma ClearRunOnTakenId(s: Server, c: Caller)
    requires c.Planned().Planned? && c.Id() in s
    ensures var p, goes := After(s, c, CLEAR, 4), c.Planned().initialize;
            if HasAdoptable(s, c)
            then Outcome(p, c) == Created(c.Id(), true, goes) &&
                 p.server == (if goes then s[c.Id() := Initialized(s[c.Id()])] else s)
            else Outcome(p, c) == ReservationRejected(Coded("app_id_collision")) && p.server == s
  {
    ClearInspect(s, c);
    var p := After(s, c, CLEAR, 3);
    assert After(s, c, CLEAR, 4) == Advance(p, c, CLEAR);
    if HasAdoptable(s, c) {
      ClearFinish(p, c);
    } else {
      ClearCollision(p, c);
    }
  }

  /** A run that loses nothing succeeds exactly when the id is free or its app is this
      caller's to adopt, initializing if the plan says so, and otherwise reports the
      collision. */
  lemma ClearRunSucceedsIff(s: Server, c: Caller)
    requires c.Planned().Planned?
    ensures Outcome(After(s, c, CLEAR, 4), c) ==
            if c.Id() in s && !Adoptable(c, s[c.Id()]) then ReservationRejected(Coded("app_id_collision"))
            else Created(c.Id(), c.Id() in s, c.Planned().initialize)
  {
    if c.Id() in s {
      ClearRunOnTakenId(s, c);
    } else {
      ClearRunOnFreeId(s, c);
    }
  }

  // ---------------------------------------------------------------- retrying

  /** The planned app, if it is there, is as this caller's own requests have left it. */
  ghost predicate OwnHandiwork(s: Server, c: Caller)
    requires c.Planned().Planned?
  {
    c.Id() in s ==>
      var app := s[c.Id()];
      && app.(status := "idle", revision := 1) == NewApp(c.name, c.Body())
      && (if app.revision == 1 then app.status == "idle" else app.revision > 1 && app.status == "active")
  }

  lemma AdvanceKeepsHandiwork(p: Progress, c: Caller, f: Fates)
    requires c.Planned().Planned? && KnowsPlan(p.answers, c) && OwnHandiwork(p.server, c)
    ensures OwnHandiwork(Advance(p, c, f).server, c)
  {
    match Next(p, c)
    case None =>
    case Some(r) =>
      if !r.Plan? {
        RequestIsOwn(p, c);
      }
      ServingKeepsHandiwork(p.server, c, r, f);
  }

  lemma ServingKeepsHandiwork(s: Server, c: Caller, r: Request, f: Fates)
    requires c.Planned().Planned? && OwnHandiwork(s, c)
    requires !r.Plan? ==> r.id == c.Id() && (!r.Inspect? ==> r.body == c.Body())
    ensures OwnHandiwork(Exchange(s, c, r, f).0, c)
  {
    var t := Exchange(s, c, r, f).0;
    ExchangeServesOrNot(s, c, r, f);
    match r
    case Reserve(id, body) => assert t == s || t == s[id := NewApp(c.name, body)];
    case Initialize(id, _) => assert t == s || (id in s && t == s[id := Initialized(s[id])]);
    case _ =>
  }

  lemma RunKeepsHandiwork(s: Server, c: Caller, f: Fates, n: nat)
    requires c.Planned().Planned? && Plausible(f.plan) && OwnHandiwork(s, c)
    ensures OwnHandiwork(After(s, c, f, n).server, c)
  {
    var inv := (k: nat, q: Progress) => KnowsPlan(q.answers, c) && OwnHandiwork(q.server, c);
    forall k: nat, q | inv(k, q) ensures inv(k + 1, Steps(c, f)(q)) {
      AdvanceKnowsPlan(q, c, f);
      AdvanceKeepsHandiwork(q, c, f);
    }
    Invariantly(Steps(c, f), inv, Start(s), n);
  }

  lemma {:induction false} AttemptsKeepHandiwork(s: Server, c: Caller, attempts: seq<Attempt>)
    requires c.Planned().Planned? && OwnHandiwork(s, c) && AllPlausible(attempts)
    ensures OwnHandiwork(AfterAttempts(s, c, attempts), c)
    decreases |attempts|
  {
    if attempts != [] {
      RunKeepsHandiwork(s, c, attempts[0].fates, attempts[0].stop);
      AttemptsKeepHandiwork(After(s, c, attempts[0].fates, attempts[0].stop).server, c, attempts[1..]);
    }
  }

  lemma OwnSettingsPass(c: Caller)
    requires c.Planned().Planned?
    ensures EchoesSettings(c.Body(), Obj(Settings(c.Body()))) && NoLifecycleMarks(Settings(c.Body()))
  {
    PlanIsGood(c.requested, Ok(c.plan));
    BodyHasNoMarks(c.plan);
    assert Obj(Settings(c.Body())) == c.Body();
  }

  lemma HandiworkIsAdoptableIff(s: Server, c: Caller)
    requires c.Planned().Planned? && OwnHandiwork(s, c) && c.Id() in s
    ensures Adoptable(c, s[c.Id()]) <==> s[c.Id()].revision == 1
  {
    OwnSettingsPass(c);
    assert s[c.Id()].settings == Settings(c.Body());
  }

  /** The planned app is there and some initialize took effect on it. */
  predicate InitializeTookEffect(s: Server, c: Caller)
    requires c.Planned().Planned?
  {
    c.Id() in s && s[c.Id()].revision != 1
  }

  /** That is so exactly from the first initialize on that the server carries out. */
  lemma InitializeTakesEffectOnce(s: Server, c: Caller, r: Request, takesEffect: bool)
    requires c.Planned().Planned? && (c.Id() in s ==> s[c.Id()].revision >= 1)
    ensures InitializeTookEffect(Serve(s, c, r, takesEffect).0, c) <==>
              InitializeTookEffect(s, c) || (r.Initialize? && r.id == c.Id() && c.Id() in s && takesEffect)
    ensures var t := Serve(s, c, r, takesEffect).0; c.Id() in t ==> t[c.Id()].revision >= 1
  {
  }

  /** After any number of runs, cut off anywhere and with anything lost, while nobody else
      touches the id: the first run that loses nothing reserves or adopts, and initializes
      if the plan says so, exactly when no initialize took effect before; the server then
      has the completed app. Otherwise it reports the collision. */
  lemma RetryingCompletes(s: Server, c: Caller, attempts: seq<Attempt>)
    requires c.Planned().Planned? && c.Id() !in s && AllPlausible(attempts)
    ensures var t := AfterAttempts(s, c, attempts);
            var p, app, goes := After(t, c, CLEAR, 4), NewApp(c.name, c.Body()), c.Planned().initialize;
            if InitializeTookEffect(t, c) then Outcome(p, c) == ReservationRejected(Coded("app_id_collision"))
            else && Outcome(p, c) == Created(c.Id(), c.Id() in t, goes)
                 && p.server == t[c.Id() := if goes then Initialized(app) else app]
  {
    AttemptsKeepHandiwork(s, c, attempts);
    var t := AfterAttempts(s, c, attempts);
    if c.Id() in t {
      HandiworkIsAdoptableIff(t, c);
      ClearRunOnTakenId(t, c);
    } else {
      ClearRunOnFreeId(t, c);
    }
  }
}
