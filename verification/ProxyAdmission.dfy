/** Admission in `proxy/src/main.rs`: which budget a request draws on, and how long its
  * permit is held, through streamed bodies and WebSocket bridges.
  *
  * Requests run concurrently; a step is what one of them does between two awaits. */
module ProxyAdmission {
  import opened Common

  // ---------- paths ----------

  const PERSONA_LINK_PATH := "/api/agent/link"

  predicate Under(path: string, prefix: string) {
    path == prefix || prefix + "/" <= path
  }

  predicate IsPersonaPath(path: string) {
    || Under(path, "/api/agent") || Under(path, "/api/speech") || Under(path, "/api/merope/rig")
    || Under(path, "/api/tapp/agent/v2/interactions")
  }

  predicate Below(path: string, prefix: string) {
    |path| > |prefix| && prefix <= path
  }

  predicate IsFederationPath(path: string) {
    || path == "/.well-known/webfinger" || path == "/.well-known/nodeinfo"
    || path == "/nodeinfo/2.1" || path == "/inbox"
    || Below(path, "/api/federation/") || Below(path, "/api/admin/federation/") || Below(path, "/api/tapp/federation/")
    || Below(path, "/users/") || Below(path, "/activities/") || Below(path, "/notes/") || Below(path, "/reports/")
    || Below(path, "/tapps/") || Below(path, "/library/") || Below(path, "/phantasi/articles/")
  }

  predicate EndsWith(path: string, suffix: string) {
    |path| >= |suffix| && path[|path| - |suffix|..] == suffix
  }

  lemma UnderStarts(path: string, prefix: string)
    ensures Under(path, prefix) ==> prefix <= path
  {
    if path != prefix && Under(path, prefix) { assert prefix <= prefix + "/" <= path; }
  }

  /** Letters that every persona path has and no federation path has. */
  predicate PersonaLetters(path: string) {
    && |path| > 6 && path[1] == 'a' && path[2] == 'p'
    && (path[5] == 's' || path[5] == 'm' || (path[5] == 'a' && path[6] == 'g')
        || (|path| > 10 && path[5] == 't' && path[10] == 'a'))
  }

  lemma PersonaHasLetters(path: string)
    requires IsPersonaPath(path)
    ensures PersonaLetters(path)
  {
    hide Under;
    UnderStarts(path, "/api/agent");
    UnderStarts(path, "/api/speech");
    UnderStarts(path, "/api/merope/rig");
    UnderStarts(path, "/api/tapp/agent/v2/interactions");
  }

  lemma OtherLetters(path: string, prefix: string)
    requires |prefix| > 4 && !(prefix[1] == 'a' && prefix[2] == 'p')
    ensures path == prefix || Below(path, prefix) ==> !PersonaLetters(path)
  {
  }

  lemma FederationHasNot(path: string)
    requires IsFederationPath(path)
    ensures !PersonaLetters(path)
  {
    hide PersonaLetters, Below;
    OtherLetters(path, "/.well-known/webfinger");
    OtherLetters(path, "/.well-known/nodeinfo");
    OtherLetters(path, "/nodeinfo/2.1");
    OtherLetters(path, "/inbox");
    OtherLetters(path, "/users/");
    OtherLetters(path, "/activities/");
    OtherLetters(path, "/notes/");
    OtherLetters(path, "/reports/");
    OtherLetters(path, "/tapps/");
    OtherLetters(path, "/library/");
    OtherLetters(path, "/phantasi/articles/");
    if Below(path, "/api/federation/") || Below(path, "/api/admin/federation/") || Below(path, "/api/tapp/federation/") {
      FederationApi(path);
    }
  }

  lemma FederationApi(path: string)
    requires Below(path, "/api/federation/") || Below(path, "/api/admin/federation/") || Below(path, "/api/tapp/federation/")
    ensures !PersonaLetters(path)
  {
    if Below(path, "/api/federation/") {
      assert path[5] == 'f';
    } else if Below(path, "/api/admin/federation/") {
      assert path[5] == 'a' && path[6] == 'd';
    } else {
      assert path[5] == 't' && path[10] == 'f';
    }
  }

  /** The two domains share no path. */
  lemma DomainsAreDisjoint(path: string)
    ensures !(IsPersonaPath(path) && IsFederationPath(path))
  {
    hide IsPersonaPath, IsFederationPath, PersonaLetters;
    if IsPersonaPath(path) {
      PersonaHasLetters(path);
    }
    if IsFederationPath(path) {
      FederationHasNot(path);
    }
  }

  // ---------- routing ----------

  datatype Pool =
    | PersonaRequests | PersonaStreams | PersonaControls | PersonaLinks
    | FederationRequests | FederationWebsockets

  function Capacity(p: Pool): nat {
    match p
    case PersonaRequests => 32
    case PersonaStreams => 64
    case PersonaControls => 16
    case PersonaLinks => 16
    case FederationRequests => 32
    case FederationWebsockets => 64
  }

  datatype Request = Request(path: string, isGet: bool, upgrade: bool)

  /** What the handler reads of the proxy's configuration and shared flags. */
  datatype Env = Env(allowDirectUpdater: bool, maintenance: bool, personaIsolated: bool, personaUpstream: bool)

  datatype Route = Answer(status: nat) | Forward(pool: Option<Pool>, webSocket: bool)

  /** The pool a persona request over HTTP draws on. */
  function PersonaBudget(req: Request): Pool {
    if req.isGet && (EndsWith(req.path, "/stream") || req.path == "/api/speech/convo/events") then PersonaStreams
    else if req.path == "/api/agent/presence" || EndsWith(req.path, "/cancel")
            || req.path == "/api/speech/convo/stop" || req.path == "/api/speech/convo/interrupt" then PersonaControls
    else PersonaRequests
  }

  /** Before any budget: answered at once, forwarded by the updater channel, or admitted. */
  function Gate(req: Request, env: Env): Option<Route> {
    if req.path == "/internal" || "/internal/" <= req.path then Some(Answer(404))
    else if "/_updater/" <= req.path then
      Some(if env.allowDirectUpdater then Forward(None, false) else Answer(404))
    else if env.maintenance then Some(Answer(503))
    else if IsPersonaPath(req.path) && env.personaIsolated && !env.personaUpstream then Some(Answer(503))
    else if IsPersonaPath(req.path) && req.upgrade && req.path != PERSONA_LINK_PATH then Some(Answer(400))
    else None
  }

  /** The pool an admitted request draws on, said by domain and kind of request. */
  function PoolOf(req: Request): Option<Pool> {
    if IsPersonaPath(req.path) then Some(if req.upgrade then PersonaLinks else PersonaBudget(req))
    else if IsFederationPath(req.path) then Some(if req.upgrade then FederationWebsockets else FederationRequests)
    else None
  }

  function RouteOf(req: Request, env: Env): Route {
    var gate := Gate(req, env);
    if gate.Some? then gate.value else Forward(PoolOf(req), req.upgrade)
  }

  // ---------- requests in flight ----------

  datatype Phase =
    | Forwarding(held: Option<Pool>, webSocket: bool)   // waiting for the upstream's answer
    | Streaming(held: Option<Pool>)                     // relaying a body
    | Bridging(held: Option<Pool>)                      // copying both ways after a 101
    | Answered(status: nat)                             // never admitted
    | Refused(budget: Pool)                              // its budget was exhausted
    | Finished

  function Held(phase: Phase): Option<Pool> {
    match phase
    case Forwarding(held, _) => held
    case Streaming(held) => held
    case Bridging(held) => held
    case _ => None
  }

  datatype Entry = Entry(req: Request, route: Route, phase: Phase)

  /** The permits left in each of the six semaphores. */
  datatype Budgets = Budgets(personaRequests: nat, personaStreams: nat, personaControls: nat, personaLinks: nat,
                             federationRequests: nat, federationWebsockets: nat)
  {
    function Of(p: Pool): nat {
      match p
      case PersonaRequests => personaRequests
      case PersonaStreams => personaStreams
      case PersonaControls => personaControls
      case PersonaLinks => personaLinks
      case FederationRequests => federationRequests
      case FederationWebsockets => federationWebsockets
    }

    function With(p: Pool, n: nat): (b: Budgets)
      ensures forall q :: b.Of(q) == if q == p then n else Of(q)
    {
      match p
      case PersonaRequests => this.(personaRequests := n)
      case PersonaStreams => this.(personaStreams := n)
      case PersonaControls => this.(personaControls := n)
      case PersonaLinks => this.(personaLinks := n)
      case FederationRequests => this.(federationRequests := n)
      case FederationWebsockets => this.(federationWebsockets := n)
    }
  }

  const ALL_FREE := Budgets(32, 64, 16, 16, 32, 64)

  datatype State = State(available: Budgets, entries: seq<Entry>)

  datatype Step =
    | Arrive(req: Request, env: Env)
    | Respond(id: nat)       // an HTTP answer: its body goes on under the same permit
    | Decline(id: nat)       // the upstream refused the upgrade; its answer is relayed
    | Upgrade(id: nat)       // 101: the bridge keeps the permit
    | Fail(id: nat)          // error, timeout, or the client gone while waiting
    | EndBody(id: nat)       // end, error, deadline, or dropped
    | EndBridge(id: nat)

  predicate Enabled(s: State, step: Step) {
    match step
    case Arrive(_, _) => true
    case Respond(id) => id < |s.entries| && s.entries[id].phase.Forwarding? && !s.entries[id].phase.webSocket
    case Decline(id) => id < |s.entries| && s.entries[id].phase.Forwarding? && s.entries[id].phase.webSocket
    case Upgrade(id) => id < |s.entries| && s.entries[id].phase.Forwarding? && s.entries[id].phase.webSocket
    case Fail(id) => id < |s.entries| && s.entries[id].phase.Forwarding?
    case EndBody(id) => id < |s.entries| && s.entries[id].phase.Streaming?
    case EndBridge(id) => id < |s.entries| && s.entries[id].phase.Bridging?
  }

  function Release(available: Budgets, held: Option<Pool>): Budgets {
    if held.None? then available else available.With(held.value, available.Of(held.value) + 1)
  }

  function Admit(s: State, req: Request, env: Env): State {
    var route := RouteOf(req, env);
    match route
    case Answer(status) => s.(entries := s.entries + [Entry(req, route, Answered(status))])
    case Forward(None, webSocket) => s.(entries := s.entries + [Entry(req, route, Forwarding(None, webSocket))])
    case Forward(Some(p), webSocket) =>
      if s.available.Of(p) == 0 then s.(entries := s.entries + [Entry(req, route, Refused(p))])
      else State(s.available.With(p, s.available.Of(p) - 1), s.entries + [Entry(req, route, Forwarding(Some(p), webSocket))])
  }

  function Moved(s: State, id: nat, phase: Phase): seq<Entry>
    requires id < |s.entries|
  {
    s.entries[id := s.entries[id].(phase := phase)]
  }

  function Apply(s: State, step: Step): State
    requires Enabled(s, step)
  {
    match step
    case Arrive(req, env) => Admit(s, req, env)
    case Respond(id) => s.(entries := Moved(s, id, Streaming(s.entries[id].phase.held)))
    case Decline(id) => State(Release(s.available, s.entries[id].phase.held), Moved(s, id, Streaming(None)))
    case Upgrade(id) => s.(entries := Moved(s, id, Bridging(s.entries[id].phase.held)))
    case Fail(id) => State(Release(s.available, s.entries[id].phase.held), Moved(s, id, Finished))
    case EndBody(id) => State(Release(s.available, s.entries[id].phase.held), Moved(s, id, Finished))
    case EndBridge(id) => State(Release(s.available, s.entries[id].phase.held), Moved(s, id, Finished))
  }

  // ---------- conservation ----------

  /** How many requests hold a permit of `p`. */
  function Holders(entries: seq<Entry>, p: Pool): nat {
    if entries == [] then 0
    else Holders(entries[..|entries| - 1], p) + (if Held(entries[|entries| - 1].phase) == Some(p) then 1 else 0)
  }

  /** Every permit is either available or held; what a request holds, or was refused, is of
    * the pool its path and method select; and only an admitted request holds anything. */
  ghost predicate Inv(s: State) {
    && (forall p :: s.available.Of(p) + Holders(s.entries, p) == Capacity(p))
    && (forall id :: 0 <= id < |s.entries| ==> EntryInv(s.entries[id]))
  }

  predicate EntryInv(e: Entry) {
    && (Held(e.phase).Some? ==> e.route.Forward? && e.route.pool == Held(e.phase) && PoolOf(e.req) == Held(e.phase))
    && (e.phase.Refused? ==> PoolOf(e.req) == Some(e.phase.budget))
  }

  lemma {:induction false} HoldersMoved(entries: seq<Entry>, id: nat, phase: Phase, p: Pool)
    requires id < |entries|
    ensures Holders(entries[id := entries[id].(phase := phase)], p)
            + (if Held(entries[id].phase) == Some(p) then 1 else 0)
         == Holders(entries, p) + (if Held(phase) == Some(p) then 1 else 0)
  {
    var moved := entries[id := entries[id].(phase := phase)];
    var init := entries[..|entries| - 1];
    if id == |entries| - 1 {
      assert moved[..|entries| - 1] == init;
    } else {
      assert moved[..|entries| - 1] == init[id := init[id].(phase := phase)];
      HoldersMoved(init, id, phase, p);
    }
  }

  lemma HoldersAppend(entries: seq<Entry>, e: Entry, p: Pool)
    ensures Holders(entries + [e], p) == Holders(entries, p) + (if Held(e.phase) == Some(p) then 1 else 0)
  {
    assert (entries + [e])[..|entries|] == entries;
  }

  lemma StepKeeps(s: State, step: Step)
    requires Inv(s) && Enabled(s, step)
    ensures Inv(Apply(s, step))
  {
    if step.Arrive? {
      ArrivalKeeps(s, step.req, step.env);
    } else {
      var phase := Apply(s, step).entries[step.id].phase;
      assert EntryInv(s.entries[step.id]);
      MoveKeeps(s, step.id, phase);
    }
  }

  lemma ArrivalKeeps(s: State, req: Request, env: Env)
    requires Inv(s)
    ensures Inv(Admit(s, req, env))
  {
    hide RouteOf, PoolOf, Gate, Capacity;
    RoutedPool(req, env);
    var s' := Admit(s, req, env);
    forall p ensures s'.available.Of(p) + Holders(s'.entries, p) == Capacity(p) {
      assert s.available.Of(p) + Holders(s.entries, p) == Capacity(p);
      HoldersAppend(s.entries, s'.entries[|s.entries|], p);
    }
  }

  /** A request moves to a phase in which it holds what it held, or returns it. */
  lemma MoveKeeps(s: State, id: nat, phase: Phase)
    requires Inv(s) && id < |s.entries| && !phase.Refused?
    requires Held(phase) == None || Held(phase) == Held(s.entries[id].phase)
    ensures var kept := Held(phase) == Held(s.entries[id].phase);
            Inv(State(if kept then s.available else Release(s.available, Held(s.entries[id].phase)), Moved(s, id, phase)))
  {
    hide PoolOf, Capacity;
    var held := Held(s.entries[id].phase);
    var available' := if Held(phase) == held then s.available else Release(s.available, held);
    forall p ensures available'.Of(p) + Holders(Moved(s, id, phase), p) == Capacity(p) {
      assert s.available.Of(p) + Holders(s.entries, p) == Capacity(p);
      HoldersMoved(s.entries, id, phase, p);
    }
    assert EntryInv(s.entries[id]);
  }

  lemma RoutedPool(req: Request, env: Env)
    ensures var r := RouteOf(req, env); r.Forward? && r.pool.Some? ==> r.pool == PoolOf(req)
  {
  }

  // ---------- runs ----------

  const IDLE := State(ALL_FREE, [])

  ghost predicate IsRun(s: State, steps: seq<Step>)
    decreases |steps|
  {
    steps != [] ==> Enabled(s, steps[0]) && IsRun(Apply(s, steps[0]), steps[1..])
  }

  ghost function After(s: State, steps: seq<Step>): State
    requires IsRun(s, steps)
    decreases |steps|
  {
    if steps == [] then s else After(Apply(s, steps[0]), steps[1..])
  }

  lemma {:induction false} RunKeeps(s: State, steps: seq<Step>)
    requires Inv(s) && IsRun(s, steps)
    ensures Inv(After(s, steps))
    decreases |steps|
  {
    if steps != [] {
      StepKeeps(s, steps[0]);
      RunKeeps(Apply(s, steps[0]), steps[1..]);
    }
  }

  /** In every reachable state each budget is conserved: available permits plus live holders
    * are its capacity. So once every request is over, every budget is whole again, and a
    * budget is exhausted only while as many requests as it has permits hold one. */
  lemma BudgetsAreConserved(steps: seq<Step>, p: Pool)
    requires IsRun(IDLE, steps)
    ensures var s := After(IDLE, steps);
            && s.available.Of(p) + Holders(s.entries, p) == Capacity(p)
            && ((forall id :: 0 <= id < |s.entries| ==> Held(s.entries[id].phase).None?) ==> s.available.Of(p) == Capacity(p))
            && (s.available.Of(p) == 0 <==> Holders(s.entries, p) == Capacity(p))
  {
    assert Inv(IDLE);
    RunKeeps(IDLE, steps);
    var s := After(IDLE, steps);
    if forall id :: 0 <= id < |s.entries| ==> Held(s.entries[id].phase).None? {
      NoHolders(s.entries, p);
    }
  }

  lemma {:induction false} NoHolders(entries: seq<Entry>, p: Pool)
    requires forall id :: 0 <= id < |entries| ==> Held(entries[id].phase).None?
    ensures Holders(entries, p) == 0
  {
    if entries != [] { NoHolders(entries[..|entries| - 1], p); }
  }

  /** Whoever holds a permit, or was refused one, asked for the pool of its own path and
    * method; a request of neither domain holds none and is never refused for capacity. */
  lemma PermitsMatchPaths(steps: seq<Step>, id: nat)
    requires IsRun(IDLE, steps) && id < |After(IDLE, steps).entries|
    ensures var e := After(IDLE, steps).entries[id];
            && (Held(e.phase).Some? ==> Held(e.phase) == PoolOf(e.req))
            && (e.phase.Refused? ==> PoolOf(e.req) == Some(e.phase.budget))
            && (!IsPersonaPath(e.req.path) && !IsFederationPath(e.req.path) ==>
                  Held(e.phase).None? && !e.phase.Refused?)
  {
    assert Inv(IDLE);
    RunKeeps(IDLE, steps);
    assert EntryInv(After(IDLE, steps).entries[id]);
  }

  // ---------- a permit returns once ----------

  /** A request that holds no permit never holds one again, and one that holds a permit
    * never holds another. */
  lemma {:induction false} HoldsAtMostOnce(s: State, steps: seq<Step>, id: nat)
    requires IsRun(s, steps) && id < |s.entries|
    ensures var s' := After(s, steps);
            && id < |s'.entries| && s'.entries[id].req == s.entries[id].req
            && (Held(s'.entries[id].phase).Some? ==> Held(s'.entries[id].phase) == Held(s.entries[id].phase))
    decreases |steps|
  {
    if steps != [] {
      HoldsAtMostOnce(Apply(s, steps[0]), steps[1..], id);
    }
  }

  /** The step in which a request stops holding its permit returns exactly that permit, and
    * no step of another request returns any. */
  lemma ReturnsItsPermit(s: State, step: Step, id: nat, p: Pool)
    requires Inv(s) && Enabled(s, step) && id < |s.entries| && Held(s.entries[id].phase) == Some(p)
    ensures var s' := Apply(s, step);
            Held(s'.entries[id].phase).None? ==>
              s'.available == s.available.With(p, s.available.Of(p) + 1) && s'.available.Of(p) <= Capacity(p)
  {
    StepKeeps(s, step);
  }

  /** A refused upgrade gives its permit back when the refusal is relayed: from then on, to
    * the end of the body and beyond, the request holds nothing, and the end of the body
    * changes no budget. */
  lemma DeclinedUpgradeReturnsFirst(s: State, id: nat, p: Pool, steps: seq<Step>)
    requires Inv(s) && Enabled(s, Decline(id)) && s.entries[id].phase.held == Some(p)
    requires IsRun(Apply(s, Decline(id)), steps)
    ensures Apply(s, Decline(id)).available.Of(p) == s.available.Of(p) + 1
    ensures var s' := After(Apply(s, Decline(id)), steps);
            && id < |s'.entries| && Held(s'.entries[id].phase).None?
            && (Enabled(s', EndBody(id)) ==> Apply(s', EndBody(id)).available == s'.available)
  {
    HoldsAtMostOnce(Apply(s, Decline(id)), steps, id);
  }

  /** The request a step is about, once it has arrived. */
  function RequestOf(step: Step): Option<nat> {
    match step
    case Arrive(_, _) => None
    case Respond(id) => Some(id)
    case Decline(id) => Some(id)
    case Upgrade(id) => Some(id)
    case Fail(id) => Some(id)
    case EndBody(id) => Some(id)
    case EndBridge(id) => Some(id)
  }

  /** A request of neither domain that passes the gate is let through whatever the budgets
    * are, and from its arrival to its end no step of it changes any. */
  lemma OutsideIsAdmitted(s: State, req: Request, env: Env, steps: seq<Step>, step: Step)
    requires !IsPersonaPath(req.path) && !IsFederationPath(req.path) && Gate(req, env).None?
    requires IsRun(Apply(s, Arrive(req, env)), steps) && Enabled(After(Apply(s, Arrive(req, env)), steps), step)
    requires RequestOf(step) == Some(|s.entries|)
    ensures var s1 := Apply(s, Arrive(req, env)); var s' := After(s1, steps);
            && s1.available == s.available && s1.entries == s.entries + [Entry(req, RouteOf(req, env), Forwarding(None, req.upgrade))]
            && Apply(s', step).available == s'.available
  {
    hide IsPersonaPath, IsFederationPath, Gate;
    HoldsAtMostOnce(Apply(s, Arrive(req, env)), steps, |s.entries|);
  }

  // ---------- kinds of requests, written out ----------

  predicate PersonaAt(path: string, root: string, tail: string) {
    && (root == "/api/agent" || root == "/api/speech" || root == "/api/merope/rig" || root == "/api/tapp/agent/v2/interactions")
    && path == root + tail && (tail != "" ==> tail[0] == '/')
  }

  ghost predicate InPersona(path: string) {
    exists root, tail :: PersonaAt(path, root, tail)
  }

  predicate IsFederationRoot(root: string) {
    || root == "/api/federation/" || root == "/api/admin/federation/" || root == "/api/tapp/federation/"
    || root == "/users/" || root == "/activities/" || root == "/notes/" || root == "/reports/"
    || root == "/tapps/" || root == "/library/" || root == "/phantasi/articles/"
  }

  predicate FederationAt(path: string, root: string, tail: string) {
    IsFederationRoot(root) && path == root + tail && tail != ""
  }

  ghost predicate InFederation(path: string) {
    || path == "/.well-known/webfinger" || path == "/.well-known/nodeinfo"
    || path == "/nodeinfo/2.1" || path == "/inbox"
    || exists root, tail :: FederationAt(path, root, tail)
  }

  ghost predicate EndsIn(path: string, suffix: string) {
    exists before :: path == before + suffix
  }

  ghost predicate IsStream(req: Request) {
    InPersona(req.path) && !req.upgrade && req.isGet && (req.path == "/api/speech/convo/events" || EndsIn(req.path, "/stream"))
  }

  ghost predicate IsControl(req: Request) {
    && InPersona(req.path) && !req.upgrade && !IsStream(req)
    && (req.path == "/api/agent/presence" || req.path == "/api/speech/convo/stop"
        || req.path == "/api/speech/convo/interrupt" || EndsIn(req.path, "/cancel"))
  }

  /** What each pool is for. */
  ghost predicate Wants(req: Request, p: Pool) {
    match p
    case PersonaStreams => IsStream(req)
    case PersonaControls => IsControl(req)
    case PersonaRequests => InPersona(req.path) && !req.upgrade && !IsStream(req) && !IsControl(req)
    case PersonaLinks => req.path == "/api/agent/link" && req.upgrade
    case FederationRequests => InFederation(req.path) && !req.upgrade
    case FederationWebsockets => InFederation(req.path) && req.upgrade
  }

  lemma UnderExactly(path: string, root: string)
    ensures Under(path, root) <==> exists tail :: path == root + tail && (tail != "" ==> tail[0] == '/')
  {
    if Under(path, root) {
      var tail := path[|root|..];
      UnderStarts(path, root);
      assert path == root + tail;
      if tail != "" { assert path[..|root| + 1] == root + "/"; }
    }
    if tail :| path == root + tail && (tail != "" ==> tail[0] == '/') {
      if tail == "" { assert path == root; } else { assert path[..|root| + 1] == root + "/"; }
    }
  }

  lemma PersonaExactly(path: string)
    ensures IsPersonaPath(path) <==> InPersona(path)
  {
    hide Under;
    UnderExactly(path, "/api/agent");
    UnderExactly(path, "/api/speech");
    UnderExactly(path, "/api/merope/rig");
    UnderExactly(path, "/api/tapp/agent/v2/interactions");
    PersonaOfRoot(path, "/api/agent");
    PersonaOfRoot(path, "/api/speech");
    PersonaOfRoot(path, "/api/merope/rig");
    PersonaOfRoot(path, "/api/tapp/agent/v2/interactions");
    if InPersona(path) {
      var root, tail :| PersonaAt(path, root, tail);
      assert path == root + tail && (tail != "" ==> tail[0] == '/');
    }
  }

  lemma PersonaOfRoot(path: string, root: string)
    requires root == "/api/agent" || root == "/api/speech" || root == "/api/merope/rig" || root == "/api/tapp/agent/v2/interactions"
    ensures Under(path, root) ==> InPersona(path)
  {
    if Under(path, root) {
      UnderExactly(path, root);
      var tail :| path == root + tail && (tail != "" ==> tail[0] == '/');
      assert PersonaAt(path, root, tail);
    }
  }

  lemma BelowExactly(path: string, root: string)
    ensures Below(path, root) <==> exists tail :: path == root + tail && tail != ""
  {
    if Below(path, root) {
      var tail := path[|root|..];
      assert path == root + tail && tail != "";
    }
  }

  lemma FederationOfRoot(path: string, root: string)
    requires IsFederationRoot(root)
    ensures Below(path, root) ==> InFederation(path)
  {
    if Below(path, root) {
      BelowExactly(path, root);
      var tail :| path == root + tail && tail != "";
      assert FederationAt(path, root, tail);
    }
  }

  lemma RootOf(path: string, root: string, tail: string)
    requires FederationAt(path, root, tail)
    ensures IsFederationPath(path)
  {
    hide Below;
    BelowExactly(path, root);
    assert path == root + tail && tail != "";
    assert Below(path, root);
  }

  predicate IsFederationLeaf(path: string) {
    path == "/.well-known/webfinger" || path == "/.well-known/nodeinfo" || path == "/nodeinfo/2.1" || path == "/inbox"
  }

  lemma LeafIsIn(path: string)
    requires IsFederationLeaf(path)
    ensures IsFederationPath(path) && InFederation(path)
  {
    hide Below, FederationAt;
  }

  lemma FederationExactly(path: string)
    ensures IsFederationPath(path) <==> InFederation(path)
  {
    hide Below, FederationAt;
    if InFederation(path) && !IsFederationLeaf(path) {
      var root, tail :| FederationAt(path, root, tail);
      RootOf(path, root, tail);
    }
    FederationGoesIn(path);
  }

  lemma FederationGoesIn(path: string)
    ensures IsFederationPath(path) ==> InFederation(path)
  {
    hide Below, InFederation;
    if IsFederationLeaf(path) { LeafIsIn(path); }
    FederationOfRoot(path, "/api/federation/");
    FederationOfRoot(path, "/api/admin/federation/");
    FederationOfRoot(path, "/api/tapp/federation/");
    FederationOfRoot(path, "/users/");
    FederationOfRoot(path, "/activities/");
    FederationOfRoot(path, "/notes/");
    FederationOfRoot(path, "/reports/");
    FederationOfRoot(path, "/tapps/");
    FederationOfRoot(path, "/library/");
    FederationOfRoot(path, "/phantasi/articles/");
  }

  lemma EndsExactly(path: string, suffix: string)
    ensures EndsWith(path, suffix) <==> EndsIn(path, suffix)
  {
    if EndsWith(path, suffix) { assert path == path[..|path| - |suffix|] + suffix; }
  }

  /** A request draws on a pool exactly if it is of the kind the pool is for, the refused
    * persona handshakes apart. */
  lemma PoolIsForKind(req: Request, p: Pool)
    requires IsPersonaPath(req.path) && req.upgrade ==> req.path == "/api/agent/link"
    ensures PoolOf(req) == Some(p) <==> Wants(req, p)
  {
    hide IsPersonaPath, IsFederationPath, InPersona, InFederation, EndsWith, EndsIn;
    PersonaExactly(req.path);
    FederationExactly(req.path);
    DomainsAreDisjoint(req.path);
    EndsExactly(req.path, "/stream");
    EndsExactly(req.path, "/cancel");
    LinkIsPersona();
  }

  lemma LinkIsPersona()
    ensures IsPersonaPath("/api/agent/link")
  {
    assert "/api/agent" + "/" <= "/api/agent/link";
  }

  // ---------- what is held while a request is in flight ----------

  /** While it waits, streams an HTTP answer, or bridges, a request holds a permit of its
    * pool; only the body of a refused upgrade streams without one. */
  predicate InFlightInv(e: Entry) {
    && (e.phase.Forwarding? && PoolOf(e.req).Some? ==> e.phase.webSocket == e.req.upgrade)
    && (e.phase.Forwarding? || e.phase.Bridging? || (e.phase.Streaming? && !e.req.upgrade) ==> Held(e.phase) == PoolOf(e.req))
    && (Held(e.phase).Some? || e.phase.Refused? ==> IsPersonaPath(e.req.path) && e.req.upgrade ==> e.req.path == "/api/agent/link")
  }

  ghost predicate AllInFlight(s: State) {
    forall id :: 0 <= id < |s.entries| ==> InFlightInv(s.entries[id])
  }

  lemma OtherSecondLetter(path: string, prefix: string)
    requires |path| > 1 && path[1] == '_' && |prefix| > 1 && prefix[1] != '_'
    ensures path != prefix && !Under(path, prefix) && !Below(path, prefix)
  {
    UnderStarts(path, prefix);
  }

  lemma UpdaterIsOutside(path: string)
    requires "/_updater/" <= path
    ensures !IsPersonaPath(path) && !IsFederationPath(path)
  {
    hide Under, Below;
    assert path[1] == "/_updater/"[1];
    OtherSecondLetter(path, "/api/agent");
    OtherSecondLetter(path, "/api/speech");
    OtherSecondLetter(path, "/api/merope/rig");
    OtherSecondLetter(path, "/api/tapp/agent/v2/interactions");
    OtherSecondLetter(path, "/.well-known/webfinger");
    OtherSecondLetter(path, "/.well-known/nodeinfo");
    OtherSecondLetter(path, "/nodeinfo/2.1");
    OtherSecondLetter(path, "/inbox");
    OtherSecondLetter(path, "/api/federation/");
    OtherSecondLetter(path, "/api/admin/federation/");
    OtherSecondLetter(path, "/api/tapp/federation/");
    OtherSecondLetter(path, "/users/");
    OtherSecondLetter(path, "/activities/");
    OtherSecondLetter(path, "/notes/");
    OtherSecondLetter(path, "/reports/");
    OtherSecondLetter(path, "/tapps/");
    OtherSecondLetter(path, "/library/");
    OtherSecondLetter(path, "/phantasi/articles/");
  }

  lemma ArrivalInFlight(s: State, req: Request, env: Env)
    ensures InFlightInv(Admit(s, req, env).entries[|s.entries|])
  {
    hide IsPersonaPath, IsFederationPath, PersonaBudget;
    if "/_updater/" <= req.path { UpdaterIsOutside(req.path); }
  }

  lemma StepKeepsInFlight(s: State, step: Step)
    requires AllInFlight(s) && Enabled(s, step)
    ensures AllInFlight(Apply(s, step))
  {
    hide PoolOf, RouteOf, IsPersonaPath, IsFederationPath;
    if step.Arrive? {
      ArrivalInFlight(s, step.req, step.env);
    } else {
      assert InFlightInv(s.entries[step.id]);
    }
  }

  lemma {:induction false} RunKeepsInFlight(s: State, steps: seq<Step>)
    requires AllInFlight(s) && IsRun(s, steps)
    ensures AllInFlight(After(s, steps))
    decreases |steps|
  {
    hide Apply, Enabled, AllInFlight;
    if steps != [] {
      StepKeepsInFlight(s, steps[0]);
      RunKeepsInFlight(Apply(s, steps[0]), steps[1..]);
    }
  }

  /** In every reachable state: whoever holds or was refused a permit is of the kind its pool
    * is for; and whoever is of a pool's kind and in flight holds one of its permits, all the
    * while it waits, its answer streams, or its bridge is up. */
  lemma PermitsAreForKinds(steps: seq<Step>, id: nat, p: Pool)
    requires IsRun(IDLE, steps) && id < |After(IDLE, steps).entries|
    ensures var e := After(IDLE, steps).entries[id];
            && (Held(e.phase) == Some(p) || e.phase == Refused(p) ==> Wants(e.req, p))
            && (Wants(e.req, p) && (e.phase.Forwarding? || e.phase.Bridging? || (e.phase.Streaming? && !e.req.upgrade)) ==>
                  Held(e.phase) == Some(p))
  {
    hide PoolOf, Wants, IsPersonaPath, IsFederationPath, Apply, Enabled;
    RunKeepsInFlight(IDLE, steps);
    PermitsMatchPaths(steps, id);
    var e := After(IDLE, steps).entries[id];
    assert InFlightInv(e);
    if Held(e.phase) == Some(p) || e.phase == Refused(p) {
      PoolIsForKind(e.req, p);
    }
    if Wants(e.req, p) {
      WantsOnlyLinks(e.req, p);
      PoolIsForKind(e.req, p);
    }
  }

  lemma WantsOnlyLinks(req: Request, p: Pool)
    requires Wants(req, p)
    ensures IsPersonaPath(req.path) && req.upgrade ==> req.path == "/api/agent/link"
  {
    hide IsPersonaPath, IsFederationPath, InFederation;
    FederationExactly(req.path);
    DomainsAreDisjoint(req.path);
  }

  /** The six budgets, in numbers. */
  lemma BudgetsInNumbers(steps: seq<Step>)
    requires IsRun(IDLE, steps)
    ensures var s := After(IDLE, steps);
            && s.available.personaRequests + Holders(s.entries, PersonaRequests) == 32
            && s.available.personaStreams + Holders(s.entries, PersonaStreams) == 64
            && s.available.personaControls + Holders(s.entries, PersonaControls) == 16
            && s.available.personaLinks + Holders(s.entries, PersonaLinks) == 16
            && s.available.federationRequests + Holders(s.entries, FederationRequests) == 32
            && s.available.federationWebsockets + Holders(s.entries, FederationWebsockets) == 64
  {
    hide Apply, Enabled, Holders;
    BudgetsAreConserved(steps, PersonaRequests);
    BudgetsAreConserved(steps, PersonaStreams);
    BudgetsAreConserved(steps, PersonaControls);
    BudgetsAreConserved(steps, PersonaLinks);
    BudgetsAreConserved(steps, FederationRequests);
    BudgetsAreConserved(steps, FederationWebsockets);
  }

  // ---------- what an arrival is answered ----------

  ghost predicate StartsWith(path: string, prefix: string) {
    exists tail :: path == prefix + tail
  }

  lemma StartsExactly(path: string, prefix: string)
    ensures prefix <= path <==> StartsWith(path, prefix)
  {
    if prefix <= path { assert path == prefix + path[|prefix|..]; }
  }

  /** Why a request is answered at once, in the order in which it is looked at. */
  ghost function AnswerOf(req: Request, env: Env): Option<nat> {
    if req.path == "/internal" || StartsWith(req.path, "/internal/") then Some(404)
    else if StartsWith(req.path, "/_updater/") then (if env.allowDirectUpdater then None else Some(404))
    else if env.maintenance then Some(503)
    else if InPersona(req.path) && env.personaIsolated && !env.personaUpstream then Some(503)
    else if InPersona(req.path) && req.upgrade && req.path != "/api/agent/link" then Some(400)
    else None
  }

  /** An arriving request is answered at once, or gets a permit of the pool of its kind if one
    * is left and is refused if none is, or is forwarded without one if it is of no pool's kind
    * or goes to the updater. */
  lemma ArrivalExactly(s: State, req: Request, env: Env)
    ensures var s' := Apply(s, Arrive(req, env)); var e := s'.entries[|s.entries|];
            && e.req == req
            && (AnswerOf(req, env).Some? ==> e.phase == Answered(AnswerOf(req, env).value) && s'.available == s.available)
            && (AnswerOf(req, env).None? ==> forall p :: Wants(req, p) ==>
                  if s.available.Of(p) == 0 then e.phase == Refused(p) && s'.available == s.available
                  else e.phase == Forwarding(Some(p), req.upgrade) && s'.available == s.available.With(p, s.available.Of(p) - 1))
            && (AnswerOf(req, env).None? && (forall p :: !Wants(req, p)) ==>
                  e.phase.Forwarding? && e.phase.held.None? && s'.available == s.available)
  {
    hide IsPersonaPath, IsFederationPath, InPersona, PoolOf, Wants, StartsWith;
    StartsExactly(req.path, "/internal/");
    StartsExactly(req.path, "/_updater/");
    PersonaExactly(req.path);
    if "/_updater/" <= req.path {
      UpdaterIsOutside(req.path);
      OutsideHasNoPool(req);
    }
    if AnswerOf(req, env).None? {
      forall p ensures PoolOf(req) == Some(p) <==> Wants(req, p) {
        PoolIsForKind(req, p);
      }
    }
  }

  lemma OutsideHasNoPool(req: Request)
    requires !IsPersonaPath(req.path) && !IsFederationPath(req.path)
    ensures PoolOf(req).None?
  {
  }

  // ---------- the handler ----------

  /** The shared state of the proxy, and the handler's branches up to the first forward. */
  class Proxy {
    var available: Budgets
    var entries: seq<Entry>

    ghost function View(): State
      reads this
    {
      State(available, entries)
    }

    constructor ()
      ensures View() == IDLE && Inv(View())
    {
      available, entries := ALL_FREE, [];
    }

    /** `try_acquire_owned`. */
    method TryAcquire(p: Pool) returns (ok: bool)
      modifies this`available
      ensures ok == (old(available).Of(p) > 0)
      ensures available == if ok then old(available).With(p, old(available).Of(p) - 1) else old(available)
    {
      ok := available.Of(p) > 0;
      if ok {
        available := available.With(p, available.Of(p) - 1);
      }
    }

    method Handle(req: Request, env: Env) returns (id: nat)
      requires Inv(View())
      modifies this
      ensures Inv(View()) && View() == Apply(old(View()), Arrive(req, env))
      ensures id == |old(entries)|
    {
      ghost var before := View();
      StepKeeps(before, Arrive(req, env));
      DomainsAreDisjoint(req.path);
      id := |entries|;
      var phase := Branches(req, env);
      entries := entries + [Entry(req, RouteOf(req, env), phase)];
    }

    method Branches(req: Request, env: Env) returns (phase: Phase)
      requires !(IsPersonaPath(req.path) && IsFederationPath(req.path))
      modifies this`available
      ensures var s := Admit(State(old(available), entries), req, env);
              available == s.available && phase == s.entries[|entries|].phase
    {
      var path := req.path;
      if path == "/internal" || "/internal/" <= path {
        return Answered(404);
      }
      if "/_updater/" <= path {
        if !env.allowDirectUpdater {
          return Answered(404);
        }
        return Forwarding(None, false);
      }
      if env.maintenance {
        return Answered(503);
      }
      var persona := IsPersonaPath(path);
      if persona && env.personaIsolated {
        if !env.personaUpstream {
          return Answered(503);
        }
      }
      if persona && req.upgrade {
        if path != PERSONA_LINK_PATH {
          return Answered(400);
        }
        var ok := TryAcquire(PersonaLinks);
        return if ok then Forwarding(Some(PersonaLinks), true) else Refused(PersonaLinks);
      }
      if persona {
        var budget := PersonaBudget(req);
        var ok := TryAcquire(budget);
        return if ok then Forwarding(Some(budget), false) else Refused(budget);
      }
      if req.upgrade {
        if IsFederationPath(path) {
          var ok := TryAcquire(FederationWebsockets);
          return if ok then Forwarding(Some(FederationWebsockets), true) else Refused(FederationWebsockets);
        }
        return Forwarding(None, true);
      }
      if IsFederationPath(path) {
        var ok := TryAcquire(FederationRequests);
        return if ok then Forwarding(Some(FederationRequests), false) else Refused(FederationRequests);
      }
      return Forwarding(None, false);
    }
  }
}
