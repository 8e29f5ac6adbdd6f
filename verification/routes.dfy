/** Compiled routes and the bounded walk over them. */
module Routes {
  import opened Bytes
  import opened Config
  import Uri
  import V = Validate

  // --- compilation ---

  datatype Target =
    | ToApplication(name: string)
    | ToRoute(route: string)
    | ToShare(template: string, index: string, types: Option<seq<string>>, followSymlinks: bool,
              serveSources: ServeSources, fallback: Option<Target>)
    | ToReturn(status: nat, location: Option<string>)

  /** `Panic` stands for the two branches the code calls unreachable. */
  datatype Compiled = Panic | Fine(target: Target)

  /** `compile_action`. A share's type filter is compiled elsewhere. */
  function CompileAction(a: Action): Compiled
    decreases a
  {
    if a.application.Some? then
      if a.application.value.Inline? then Panic else Fine(ToApplication(a.application.value.name))
    else if a.route.Some? then Fine(ToRoute(a.route.value))
    else if a.share.Some? then
      if a.fallback.None? then Fine(ShareTarget(a.share.value, None))
      else
        match CompileAction(a.fallback.value)
        case Panic => Panic
        case Fine(t) => Fine(ShareTarget(a.share.value, Some(t)))
    else if a.status.Some? then Fine(ToReturn(a.status.value, a.location))
    else Panic
  }

  function ShareTarget(s: Share, fallback: Option<Target>): Target {
    match s
    case Path(p) => ToShare(p, "index.html", None, true, NoSources, fallback)
    case Full(paths, index, types, follow, sources) =>
      ToShare(if |paths| > 0 then paths[0] else "", if index.Some? then index.value else "index.html", types,
              if follow.Some? then follow.value else true, sources, fallback)
  }

  /** A share's one template and its settings, each the default where the configuration has none: `index.html`, all
      types, symlinks followed, no sources served. */
  predicate SameShare(s: Share, template: string, index: string, types: Option<seq<string>>, follow: bool,
                      sources: ServeSources) {
    && (s.Path? ==> template == s.path && index == "index.html" && types == None && follow && sources == NoSources)
    && (s.Full? ==>
          && s.paths == [template] && types == s.types && sources == s.serveSources
          && (s.index.Some? ==> s.index.value == index) && (s.index.None? ==> index == "index.html")
          && (s.followSymlinks.Some? ==> s.followSymlinks.value == follow) && (s.followSymlinks.None? ==> follow))
  }

  /** What compilation makes of an action's own terminal. */
  predicate SameTarget(a: Action, t: Target) {
    match t
    case ToApplication(name) => a.application == Some(Name(name))
    case ToRoute(route) => a.route == Some(route)
    case ToShare(template, index, types, follow, sources, fallback) =>
      a.share.Some? && (a.fallback.Some? <==> fallback.Some?)
      && SameShare(a.share.value, template, index, types, follow, sources)
    case ToReturn(status, location) => a.status == Some(status) && a.location == location
  }

  function TargetAt(t: Target, d: nat): Option<Target>
    decreases d
  {
    if d == 0 then Some(t)
    else if t.ToShare? && t.fallback.Some? then TargetAt(t.fallback.value, d - 1)
    else None
  }

  ghost predicate NoInline(a: Action) {
    forall d: nat :: V.At(a, d).Some? && V.At(a, d).value.application.Some? ==> V.At(a, d).value.application.value.Name?
  }

  /** An action that validation has passed compiles, and to the same thing at every fallback depth. */
  lemma {:induction false} FitCompiles(a: Action, routes: set<string>, apps: set<string>)
    requires V.FitAll(a, routes, apps) && NoInline(a)
    ensures CompileAction(a).Fine?
    ensures forall d: nat :: V.At(a, d).Some? <==> TargetAt(CompileAction(a).target, d).Some?
    ensures forall d: nat :: V.At(a, d).Some? ==> SameTarget(V.At(a, d).value, TargetAt(CompileAction(a).target, d).value)
    decreases a
  {
    assert V.At(a, 0) == Some(a);
    assert V.Fit(a, routes, apps);
    if a.fallback.Some? {
      var f := a.fallback.value;
      V.FitBelow(a, routes, apps);
      forall d: nat | V.At(f, d).Some? && V.At(f, d).value.application.Some?
        ensures V.At(f, d).value.application.value.Name?
      {
        assert V.At(a, d + 1) == V.At(f, d);
      }
      FitCompiles(f, routes, apps);
      var t := CompileAction(a).target;
      forall d: nat
        ensures V.At(a, d).Some? <==> TargetAt(t, d).Some?
        ensures V.At(a, d).Some? ==> SameTarget(V.At(a, d).value, TargetAt(t, d).value)
      {
        if d > 0 {
          assert V.At(a, d) == V.At(f, d - 1) && TargetAt(t, d) == TargetAt(t.fallback.value, d - 1);
        }
      }
    } else {
      var t := CompileAction(a).target;
      assert forall d: nat :: d > 0 ==> V.At(a, d).None?;
      assert forall d: nat :: d > 0 ==> TargetAt(t, d).None?;
    }
  }

  lemma {:induction false} ValidatedIsFit(c: Config, v: Validated, cores: nat, r: string, i: nat)
    requires V.Valid(c, v, cores) && r in c.routes && i < |c.routes[r]|
    ensures r in v.config.routes && i < |v.config.routes[r]|
    ensures var a := v.config.routes[r][i].action; V.FitAll(a, v.config.routes.Keys, v.applications.Keys) && NoInline(a)
  {
    var before, after := c.routes[r][i].action, v.config.routes[r];
    assert V.At(before, 0) == Some(before);
    assert V.Preserved(c, v, cores, r, i, 0);
    assert V.RouteOk(after, v.config.routes.Keys, v.applications.Keys);
    var a := after[i].action;
    forall d: nat | V.At(a, d).Some? && V.At(a, d).value.application.Some?
      ensures V.At(a, d).value.application.value.Name?
    {
      SameDepth(c, v, cores, r, i, d);
      assert V.Preserved(c, v, cores, r, i, d);
    }
  }

  /** Neither branch called unreachable is ever reached on a validated configuration. */
  lemma {:induction false} ValidatedNeverPanics(c: Config, v: Validated, cores: nat, r: string, i: nat)
    requires V.Valid(c, v, cores) && r in c.routes && i < |c.routes[r]|
    ensures r in v.config.routes && i < |v.config.routes[r]| && CompileAction(v.config.routes[r][i].action).Fine?
  {
    ValidatedIsFit(c, v, cores, r, i);
    FitCompiles(v.config.routes[r][i].action, v.config.routes.Keys, v.applications.Keys);
  }

  /** A fallback chain keeps its length: what stands in the rewritten one stood in the original. */
  lemma {:induction false} SameDepth(c: Config, v: Validated, cores: nat, r: string, i: nat, d: nat)
    requires V.Valid(c, v, cores) && r in c.routes && i < |c.routes[r]|
    requires r in v.config.routes && i < |v.config.routes[r]| && V.At(v.config.routes[r][i].action, d).Some?
    ensures V.At(c.routes[r][i].action, d).Some?
    decreases d
  {
    if d > 0 {
      V.AtNext(v.config.routes[r][i].action, d - 1);
      SameDepth(c, v, cores, r, i, d - 1);
      assert V.Preserved(c, v, cores, r, i, d - 1);
      V.AtNext(c.routes[r][i].action, d - 1);
    }
  }

  // --- the walk ---

  const HOPS := 16
  const QUESTION: byte := 63

  type HeaderOps = seq<HeaderOp>

  /** A compiled step. Matching and rendering belong to other files: here they are functions of the step's own
      pattern and of the path and query as the walk has made them. */
  datatype Step = Step(match_: Option<string>, rewrite: Option<string>, headers: HeaderOps, target: Target)

  type RouteMap = map<string, seq<Step>>

  datatype Request = Request(matches: (string, seq<byte>, seq<byte>) -> bool,
                             render: (string, seq<byte>, seq<byte>) -> seq<byte>)

  /** A step without a pattern matches everything. */
  predicate Fits(step: Step, rq: Request, path: seq<byte>, query: seq<byte>) {
    step.match_.None? || rq.matches(step.match_.value, path, query)
  }

  /** Where the walk stands. */
  datatype Walk = Walk(route: string, path: seq<byte>, query: seq<byte>, rewritten: bool, ops: HeaderOps)

  datatype Decision = Decided(target: Target) | NotFound

  datatype Hop = Ends(decision: Decision, at: Walk) | Jumps(to: Walk)

  /** The first matching step, or |steps|: what is returned matches, and nothing before it does. */
  function FirstMatch(steps: seq<Step>, rq: Request, path: seq<byte>, query: seq<byte>): (i: nat)
    ensures i <= |steps| && (i < |steps| ==> Fits(steps[i], rq, path, query))
    ensures forall j | 0 <= j < i :: !Fits(steps[j], rq, path, query)
    decreases |steps|
  {
    if |steps| == 0 || Fits(steps[0], rq, path, query) then 0
    else 1 + FirstMatch(steps[1..], rq, path, query)
  }

  /** The path is what stands before the first question mark, the query what stands behind it. */
  predicate CutAt(target: seq<byte>, path: seq<byte>, query: seq<byte>) {
    63 !in path && (target == path + [63] + query || (target == path && query == []))
  }

  /** A rendered target is cut at its first question mark. */
  function CutQuery(target: seq<byte>): (r: (seq<byte>, seq<byte>))
    ensures CutAt(target, r.0, r.1)
    decreases |target|
  {
    if |target| == 0 then ([], [])
    else if target[0] == QUESTION then ([], target[1..])
    else
      var (p, q) := CutQuery(target[1..]);
      ([target[0]] + p, q)
  }

  function Rewrite(w: Walk, step: Step, rq: Request): Walk {
    if step.rewrite.None? then w
    else
      var (p, q) := CutQuery(rq.render(step.rewrite.value, w.path, w.query));
      w.(path := Uri.Normalize(p), query := q, rewritten := true)
  }

  /** One turn of the walk. */
  function TakeHop(routes: RouteMap, rq: Request, w: Walk): Hop {
    if w.route !in routes then Ends(NotFound, w)
    else
      var steps := routes[w.route];
      var i := FirstMatch(steps, rq, w.path, w.query);
      if i == |steps| then Ends(NotFound, w)
      else
        var after := Rewrite(w.(ops := w.ops + steps[i].headers), steps[i], rq);
        match steps[i].target
        case ToRoute(name) => Jumps(after.(route := name))
        case _ => Ends(Decided(steps[i].target), after)
  }

  datatype Outcome = Ended(decision: Decision, at: Walk) | Exhausted(at: Walk)

  /** The walk for at most n turns. */
  function WalkFor(routes: RouteMap, rq: Request, w: Walk, n: nat): Outcome
    decreases n, |w.ops|
  {
    if n == 0 then Exhausted(w)
    else
      match TakeHop(routes, rq, w)
      case Ends(d, at) => Ended(d, at)
      case Jumps(to) => WalkFor(routes, rq, to, n - 1)
  }

  /** The walk without a limit: it ends with `o` after some number of turns. */
  ghost predicate WalkEnds(routes: RouteMap, rq: Request, w: Walk, o: Outcome) {
    o.Ended? && exists n: nat :: WalkFor(routes, rq, w, n) == o
  }

  /** What `decide` reports. */
  datatype Report = Report(decision: Decision, rewritten: Option<(seq<byte>, seq<byte>)>, ops: HeaderOps)

  function ReportOf(decision: Decision, w: Walk): Report {
    Report(decision, if w.rewritten then Some((w.path, w.query)) else None, w.ops)
  }

  function DecideWithin(routes: RouteMap, rq: Request, w: Walk, n: nat): Report {
    match WalkFor(routes, rq, w, n)
    case Ended(d, at) => ReportOf(d, at)
    case Exhausted(at) => ReportOf(NotFound, at)
  }

  function Decide(routes: RouteMap, rq: Request, w: Walk): Report { DecideWithin(routes, rq, w, HOPS) }

  // --- one walk, turn by turn ---

  /** The turn from w to `to` takes step i: the first of its route that fits. Its header operations go behind those of the
      steps before. A rewrite makes the path the normal form of what stands before the rendered target's first question
      mark, and the query what stands behind it. */
  ghost predicate Takes(routes: RouteMap, rq: Request, w: Walk, i: nat, to: Walk) {
    && w.route in routes && i < |routes[w.route]|
    && var step := routes[w.route][i];
    && Fits(step, rq, w.path, w.query) && (forall j | 0 <= j < i :: !Fits(routes[w.route][j], rq, w.path, w.query))
    && to.ops == w.ops + step.headers
    && (step.rewrite.None? ==> to.path == w.path && to.query == w.query && to.rewritten == w.rewritten)
    && (step.rewrite.Some? ==> to.rewritten && exists path ::
          CutAt(rq.render(step.rewrite.value, w.path, w.query), path, to.query) && to.path == Uri.Normalize(path))
  }

  predicate StepLeadsTo(routes: RouteMap, w: Walk, i: nat, t: Target) {
    w.route in routes && i < |routes[w.route]| && routes[w.route][i].target == t
  }

  /** There the walk finds nothing: no such route, or no step of it fits. */
  ghost predicate Nowhere(routes: RouteMap, rq: Request, w: Walk) {
    w.route in routes ==> forall j | 0 <= j < |routes[w.route]| :: !Fits(routes[w.route][j], rq, w.path, w.query)
  }

  /** The walk visits `at` and takes the steps `taken`, each of which but the last must jump to the next route. */
  ghost predicate Trail(routes: RouteMap, rq: Request, at: seq<Walk>, taken: seq<nat>) {
    && |at| == |taken| + 1
    && (forall k | 0 <= k < |taken| :: Takes(routes, rq, at[k], taken[k], at[k + 1]))
    && (forall k | 0 <= k < |taken| - 1 :: StepLeadsTo(routes, at[k], taken[k], ToRoute(at[k + 1].route)))
  }

  /** What is reported of a walk that starts in w: the terminal of its last step, or that nothing was found, at a place
      where nothing is or after n jumps; the path and query of its last place if there was a rewrite; and the header
      operations of the steps taken. */
  ghost predicate Reported(routes: RouteMap, rq: Request, w: Walk, at: seq<Walk>, taken: seq<nat>, r: Report, n: nat) {
    && Trail(routes, rq, at, taken) && at[0] == w && |taken| <= n
    && var last := at[|taken|];
    && r.ops == last.ops && r.rewritten == (if last.rewritten then Some((last.path, last.query)) else None)
    && match r.decision
       case Decided(t) => |taken| > 0 && StepLeadsTo(routes, at[|taken| - 1], taken[|taken| - 1], t) && !t.ToRoute?
       case NotFound =>
         && (|taken| > 0 ==> StepLeadsTo(routes, at[|taken| - 1], taken[|taken| - 1], ToRoute(last.route)))
         && (|taken| == n || Nowhere(routes, rq, last))
  }

  lemma {:induction false} OneTurn(routes: RouteMap, rq: Request, w: Walk)
    ensures var h := TakeHop(routes, rq, w);
      if h.Ends? && h.decision.NotFound? then h.at == w && Nowhere(routes, rq, w)
      else w.route in routes && var i := FirstMatch(routes[w.route], rq, w.path, w.query);
           i < |routes[w.route]| && Takes(routes, rq, w, i, if h.Ends? then h.at else h.to)
           && if h.Ends? then routes[w.route][i].target == h.decision.target && !h.decision.target.ToRoute?
              else routes[w.route][i].target == ToRoute(h.to.route)
  {
    if w.route in routes {
      var i := FirstMatch(routes[w.route], rq, w.path, w.query);
      if i < |routes[w.route]| && routes[w.route][i].rewrite.Some? {
        var target := rq.render(routes[w.route][i].rewrite.value, w.path, w.query);
        assert CutAt(target, CutQuery(target).0, CutQuery(target).1);
      }
    }
  }

  lemma {:induction false} TrailGoesOn(routes: RouteMap, rq: Request, w: Walk, i: nat, at: seq<Walk>, taken: seq<nat>)
    requires Trail(routes, rq, at, taken) && Takes(routes, rq, w, i, at[0])
    requires routes[w.route][i].target == ToRoute(at[0].route)
    ensures Trail(routes, rq, [w] + at, [i] + taken)
  {
    var places, steps := [w] + at, [i] + taken;
    assert forall k | 0 <= k < |at| :: places[k + 1] == at[k];
    assert forall k | 0 <= k < |taken| :: steps[k + 1] == taken[k];
  }

  /** One turn more in front. */
  lemma {:induction false} ReportedLater(routes: RouteMap, rq: Request, w: Walk, i: nat, to: Walk, at: seq<Walk>,
                                         taken: seq<nat>, r: Report, n: nat)
    requires Reported(routes, rq, to, at, taken, r, n) && Takes(routes, rq, w, i, to)
    requires routes[w.route][i].target == ToRoute(to.route)
    ensures Reported(routes, rq, w, [w] + at, [i] + taken, r, n + 1)
  {
    TrailGoesOn(routes, rq, w, i, at, taken);
    var places, steps := [w] + at, [i] + taken;
    assert places[|steps|] == at[|taken|];
    assert |taken| > 0 ==> places[|steps| - 1] == at[|taken| - 1] && steps[|steps| - 1] == taken[|taken| - 1];
  }

  /** Every report is that of a walk, turn by turn. */
  lemma {:induction false} ReportHasTrail(routes: RouteMap, rq: Request, w: Walk, n: nat)
      returns (at: seq<Walk>, taken: seq<nat>)
    ensures Reported(routes, rq, w, at, taken, DecideWithin(routes, rq, w, n), n)
    decreases n
  {
    at, taken := [w], [];
    if n > 0 {
      OneTurn(routes, rq, w);
      var h := TakeHop(routes, rq, w);
      if h.Jumps? {
        at, taken := ReportHasTrail(routes, rq, h.to, n - 1);
        var i := FirstMatch(routes[w.route], rq, w.path, w.query);
        ReportedLater(routes, rq, w, i, h.to, at, taken, DecideWithin(routes, rq, h.to, n - 1), n - 1);
        at, taken := [w] + at, [i] + taken;
      } else if h.decision.Decided? {
        at, taken := [w, h.at], [FirstMatch(routes[w.route], rq, w.path, w.query)];
      }
    }
  }

  function Arrival(route: string, path: seq<byte>, query: seq<byte>): Walk { Walk(route, path, query, false, []) }

  /** `decide`: the loop over at most 16 hops. */
  method DecideRoute(routes: RouteMap, rq: Request, route: string, path: seq<byte>, query: seq<byte>)
      returns (r: Report)
    ensures r == Decide(routes, rq, Arrival(route, path, query))
    ensures exists at, taken :: Reported(routes, rq, Walk(route, path, query, false, []), at, taken, r, 16)
  {
    r := WalkRoutes(routes, rq, route, path, query);
    ghost var at, taken := ReportHasTrail(routes, rq, Arrival(route, path, query), HOPS);
  }

  method WalkRoutes(routes: RouteMap, rq: Request, route: string, path: seq<byte>, query: seq<byte>)
      returns (r: Report)
    ensures r == Decide(routes, rq, Arrival(route, path, query))
  {
    var currentRoute, newPath, newQuery := route, path, query;
    var rewritten, ops := false, [];
    ghost var start := Arrival(route, path, query);
    for hop := 0 to HOPS
      invariant WalkFor(routes, rq, start, HOPS)
        == WalkFor(routes, rq, Walk(currentRoute, newPath, newQuery, rewritten, ops), HOPS - hop)
    {
      if currentRoute !in routes {
        break;
      }
      var steps := routes[currentRoute];
      var i := FindStep(steps, rq, newPath, newQuery);
      if i == |steps| {
        break;
      }
      var step := steps[i];
      ops := ops + step.headers;
      if step.rewrite.Some? {
        var (p, q) := CutQuery(rq.render(step.rewrite.value, newPath, newQuery));
        newPath := Uri.NormalizePath(p);
        newQuery := q;
        rewritten := true;
      }
      if step.target.ToRoute? {
        currentRoute := step.target.route;
        continue;
      }
      return Report(Decided(step.target), if rewritten then Some((newPath, newQuery)) else None, ops);
    }
    return Report(NotFound, if rewritten then Some((newPath, newQuery)) else None, ops);
  }

  method FindStep(steps: seq<Step>, rq: Request, path: seq<byte>, query: seq<byte>) returns (i: nat)
    ensures i == FirstMatch(steps, rq, path, query)
  {
    i := 0;
    while i < |steps| && !Fits(steps[i], rq, path, query)
      invariant i <= |steps| && forall j | 0 <= j < i :: !Fits(steps[j], rq, path, query)
    {
      i := i + 1;
    }
  }

  // --- the compiled configuration ---

  ghost predicate AllCompile(routes: Routes) {
    forall r, i | r in routes && 0 <= i < |routes[r]| :: CompileAction(routes[r][i].action).Fine?
  }

  function CompileStep(s: RouteStep): Step
    requires CompileAction(s.action).Fine?
  {
    Step(s.match_, s.action.rewrite, if s.action.responseHeaders.Some? then s.action.responseHeaders.value else [],
         CompileAction(s.action).target)
  }

  function CompileSteps(steps: seq<RouteStep>): seq<Step>
    requires forall i | 0 <= i < |steps| :: CompileAction(steps[i].action).Fine?
  {
    seq(|steps|, i requires 0 <= i < |steps| => CompileStep(steps[i]))
  }

  /** `compile`, of routes none of whose actions panics. */
  function CompileRoutes(routes: Routes): RouteMap
    requires AllCompile(routes)
  {
    map r | r in routes :: CompileSteps(routes[r])
  }

  /** A validated configuration compiles; its jumps and its listeners name routes there are. */
  lemma {:induction false} ValidatedRoutesAreClosed(c: Config, v: Validated, cores: nat)
    requires V.Valid(c, v, cores)
    ensures AllCompile(v.config.routes) && Closed(CompileRoutes(v.config.routes))
    ensures forall l | l in c.listeners && c.listeners[l].route.Some? ::
      c.listeners[l].route.value in CompileRoutes(v.config.routes)
  {
    var routes: map<string, seq<RouteStep>> := v.config.routes;
    forall r, i | r in routes && 0 <= i < |routes[r]|
      ensures CompileAction(routes[r][i].action).Fine?
    {
      StepsKept(c, v, cores, r);
      ValidatedNeverPanics(c, v, cores, r, i);
    }
    var compiled: RouteMap := CompileRoutes(routes);
    forall r, i | r in compiled && 0 <= i < |compiled[r]| && compiled[r][i].target.ToRoute?
      ensures compiled[r][i].target.route in compiled
    {
      var a := routes[r][i].action;
      assert V.RouteOk(routes[r], routes.Keys, v.applications.Keys);
      assert V.At(a, 0) == Some(a);
      assert V.Fit(a, routes.Keys, v.applications.Keys);
    }
    assert forall l | l in c.listeners :: V.ListenerOk(c.listeners[l], routes);
  }

  /** A compiled step has the step's own pattern, rewrite and header operations, none where it has none, and leads where
      the step's action does. */
  predicate SameStep(s: RouteStep, t: Step) {
    && t.match_ == s.match_ && t.rewrite == s.action.rewrite && SameTarget(s.action, t.target)
    && (s.action.responseHeaders.Some? ==> t.headers == s.action.responseHeaders.value)
    && (s.action.responseHeaders.None? ==> t.headers == [])
  }

  /** A validated configuration compiles step by step. */
  lemma {:induction false} ValidatedStepsCompile(c: Config, v: Validated, cores: nat, r: string, i: nat)
    requires V.Valid(c, v, cores) && AllCompile(v.config.routes) && r in c.routes && i < |c.routes[r]|
    ensures var compiled := CompileRoutes(v.config.routes);
      && r in v.config.routes && r in compiled && i < |v.config.routes[r]| == |compiled[r]|
      && SameStep(v.config.routes[r][i], compiled[r][i])
  {
    ValidatedIsFit(c, v, cores, r, i);
    var a := v.config.routes[r][i].action;
    FitCompiles(a, v.config.routes.Keys, v.applications.Keys);
    assert V.At(a, 0) == Some(a) && TargetAt(CompileAction(a).target, 0) == Some(CompileAction(a).target);
  }

  lemma {:induction false} StepsKept(c: Config, v: Validated, cores: nat, r: string)
    requires V.Valid(c, v, cores) && r in v.config.routes
    ensures r in c.routes && |v.config.routes[r]| == |c.routes[r]|
  {
    assert V.SameSteps(c, v, r);
  }

  // --- the bounded walk and the unbounded one ---

  lemma {:induction false} MoreTurns(routes: RouteMap, rq: Request, w: Walk, n: nat, m: nat)
    requires WalkFor(routes, rq, w, n).Ended? && n <= m
    ensures WalkFor(routes, rq, w, m) == WalkFor(routes, rq, w, n)
    decreases n
  {
    var h := TakeHop(routes, rq, w);
    if h.Jumps? {
      MoreTurns(routes, rq, h.to, n - 1, m - 1);
    }
  }

  /** A walk that ends within 16 turns is reported as it ends: decision, rewritten target, header operations. */
  lemma {:induction false} ShortWalksAreDecided(routes: RouteMap, rq: Request, w: Walk, o: Outcome, n: nat)
    requires o.Ended? && WalkFor(routes, rq, w, n) == o && n <= HOPS
    ensures Decide(routes, rq, w) == ReportOf(o.decision, o.at)
  {
    MoreTurns(routes, rq, w, n, HOPS);
  }

  /** The walk has one end at most. */
  lemma {:induction false} OneEnd(routes: RouteMap, rq: Request, w: Walk, o: Outcome, p: Outcome)
    requires WalkEnds(routes, rq, w, o) && WalkEnds(routes, rq, w, p)
    ensures o == p
  {
    var n: nat :| WalkFor(routes, rq, w, n) == o;
    var m: nat :| WalkFor(routes, rq, w, m) == p;
    if n <= m {
      MoreTurns(routes, rq, w, n, m);
    } else {
      MoreTurns(routes, rq, w, m, n);
    }
  }

  /** Every route jump leads to a route there is; validation checks this. */
  ghost predicate Closed(routes: RouteMap) {
    forall r, i | r in routes && 0 <= i < |routes[r]| && routes[r][i].target.ToRoute? :: routes[r][i].target.route in routes
  }

  ghost predicate NoRewrites(routes: RouteMap) {
    forall r, i | r in routes && 0 <= i < |routes[r]| :: routes[r][i].rewrite.None?
  }

  /** The k-th walk of a chain of jumps; meaningless past the end of the walk. */
  function Nth(routes: RouteMap, rq: Request, w: Walk, k: nat): Walk
    decreases k
  {
    if k == 0 then w
    else
      var h := TakeHop(routes, rq, Nth(routes, rq, w, k - 1));
      if h.Jumps? then h.to else h.at
  }

  lemma {:induction false} NthShift(routes: RouteMap, rq: Request, w: Walk, k: nat)
    requires TakeHop(routes, rq, w).Jumps?
    ensures Nth(routes, rq, w, k + 1) == Nth(routes, rq, TakeHop(routes, rq, w).to, k)
    decreases k
  {
    if k > 0 {
      NthShift(routes, rq, w, k - 1);
    }
  }

  predicate JumpsAt(routes: RouteMap, rq: Request, w: Walk, k: nat) {
    TakeHop(routes, rq, Nth(routes, rq, w, k)).Jumps?
  }

  /** The first n turns are jumps. */
  ghost predicate JumpsFor(routes: RouteMap, rq: Request, w: Walk, n: nat) {
    forall k: nat | k < n :: JumpsAt(routes, rq, w, k)
  }

  lemma {:induction false} ExhaustedMeansJumps(routes: RouteMap, rq: Request, w: Walk, n: nat)
    requires WalkFor(routes, rq, w, n).Exhausted?
    ensures JumpsFor(routes, rq, w, n)
    decreases n
  {
    if n > 0 {
      var to := TakeHop(routes, rq, w).to;
      ExhaustedMeansJumps(routes, rq, to, n - 1);
      forall k: nat | k < n
        ensures JumpsAt(routes, rq, w, k)
      {
        if k > 0 {
          NthShift(routes, rq, w, k - 1);
          assert JumpsAt(routes, rq, to, k - 1);
        }
      }
    }
  }

  lemma {:induction false} JumpsMeanExhausted(routes: RouteMap, rq: Request, w: Walk, n: nat)
    requires JumpsFor(routes, rq, w, n)
    ensures WalkFor(routes, rq, w, n).Exhausted?
    decreases n
  {
    if n > 0 {
      assert JumpsAt(routes, rq, w, 0) && Nth(routes, rq, w, 0) == w;
      var to := TakeHop(routes, rq, w).to;
      forall k: nat | k < n - 1
        ensures JumpsAt(routes, rq, to, k)
      {
        NthShift(routes, rq, w, k);
        assert JumpsAt(routes, rq, w, k + 1);
      }
      JumpsMeanExhausted(routes, rq, to, n - 1);
    }
  }

  /** Without rewrites a jump depends on the route alone. */
  lemma {:induction false} SameRouteSameJump(routes: RouteMap, rq: Request, a: Walk, b: Walk)
    requires NoRewrites(routes) && a.route == b.route && a.path == b.path && a.query == b.query
    requires TakeHop(routes, rq, a).Jumps?
    ensures TakeHop(routes, rq, b).Jumps?
    ensures var x, y := TakeHop(routes, rq, a).to, TakeHop(routes, rq, b).to;
      x.route == y.route && x.path == y.path && x.query == y.query && x.path == a.path && x.query == a.query
  {
  }

  lemma {:induction false} PathStays(routes: RouteMap, rq: Request, w: Walk, k: nat, n: nat)
    requires NoRewrites(routes) && JumpsFor(routes, rq, w, n) && k <= n
    ensures var x := Nth(routes, rq, w, k); x.path == w.path && x.query == w.query
    decreases k
  {
    if k > 0 {
      PathStays(routes, rq, w, k - 1, n);
      assert JumpsAt(routes, rq, w, k - 1);
      var before := Nth(routes, rq, w, k - 1);
      SameRouteSameJump(routes, rq, before, before);
    }
  }

  lemma {:induction false} SameRouteSameTurn(routes: RouteMap, rq: Request, w: Walk, m: nat, n: nat)
    requires NoRewrites(routes) && m < n && JumpsFor(routes, rq, w, n)
    requires Nth(routes, rq, w, m).route == Nth(routes, rq, w, n).route
    ensures JumpsFor(routes, rq, w, n + 1) && Nth(routes, rq, w, m + 1).route == Nth(routes, rq, w, n + 1).route
  {
    PathStays(routes, rq, w, m, n);
    PathStays(routes, rq, w, n, n);
    assert JumpsAt(routes, rq, w, m);
    SameRouteSameJump(routes, rq, Nth(routes, rq, w, m), Nth(routes, rq, w, n));
  }

  /** Once a route comes round again the walk goes round for ever: turn b does what turn a did. */
  lemma {:induction false} RoundAndRound(routes: RouteMap, rq: Request, w: Walk, i: nat, j: nat, a: nat, b: nat)
    requires NoRewrites(routes) && i < j && JumpsFor(routes, rq, w, j) && i <= a && b - j == a - i
    requires Nth(routes, rq, w, i).route == Nth(routes, rq, w, j).route
    ensures JumpsFor(routes, rq, w, b) && Nth(routes, rq, w, a).route == Nth(routes, rq, w, b).route
    decreases a - i
  {
    if a > i {
      RoundAndRound(routes, rq, w, i, j, a - 1, b - 1);
      SameRouteSameTurn(routes, rq, w, a - 1, b - 1);
    }
  }

  lemma {:induction false} InRoutes(routes: RouteMap, rq: Request, w: Walk, k: nat, n: nat)
    requires Closed(routes) && w.route in routes && JumpsFor(routes, rq, w, n) && k <= n
    ensures Nth(routes, rq, w, k).route in routes
    decreases k
  {
    if k > 0 {
      InRoutes(routes, rq, w, k - 1, n);
      assert JumpsAt(routes, rq, w, k - 1);
    }
  }

  /** The routes visited by the first n turns, in order. */
  function Visited(routes: RouteMap, rq: Request, w: Walk, n: nat): seq<string> {
    seq(n, k requires 0 <= k < n => Nth(routes, rq, w, k).route)
  }

  lemma {:induction false} Pigeonhole(s: seq<string>, holes: set<string>) returns (i: nat, j: nat)
    requires |s| > |holes| && forall k | 0 <= k < |s| :: s[k] in holes
    ensures i < j < |s| && s[i] == s[j]
    decreases |s|
  {
    var n := |s| - 1;
    if k :| 0 <= k < n && s[k] == s[n] {
      return k, n;
    }
    i, j := Pigeonhole(s[..n], holes - {s[n]});
  }

  /** With at most 16 routes and no rewrites, running out of hops means that the walk never ends. */
  lemma {:induction false} OutOfHopsMeansForever(routes: RouteMap, rq: Request, w: Walk)
    requires |routes| <= HOPS && Closed(routes) && NoRewrites(routes) && w.route in routes
    requires WalkFor(routes, rq, w, HOPS).Exhausted?
    ensures forall o :: !WalkEnds(routes, rq, w, o)
  {
    ExhaustedMeansJumps(routes, rq, w, HOPS);
    var names := Visited(routes, rq, w, HOPS + 1);
    forall k | 0 <= k < |names|
      ensures names[k] in routes.Keys
    {
      InRoutes(routes, rq, w, k, HOPS);
    }
    var i, j := Pigeonhole(names, routes.Keys);
    forall n: nat
      ensures WalkFor(routes, rq, w, n).Exhausted?
    {
      RoundAndRound(routes, rq, w, i, j, i + n, j + n);
      JumpsMeanExhausted(routes, rq, w, n);
    }
  }

  /** So there the limit loses nothing: what ends is decided as it ends, and only what never ends is not found
      by exhaustion. */
  lemma {:induction false} LimitLosesNothing(routes: RouteMap, rq: Request, w: Walk, o: Outcome)
    requires |routes| <= HOPS && Closed(routes) && NoRewrites(routes) && w.route in routes
    requires WalkEnds(routes, rq, w, o)
    ensures Decide(routes, rq, w) == ReportOf(o.decision, o.at)
  {
    var n: nat :| WalkFor(routes, rq, w, n) == o;
    if WalkFor(routes, rq, w, HOPS).Exhausted? {
      OutOfHopsMeansForever(routes, rq, w);
    } else if n <= HOPS {
      MoreTurns(routes, rq, w, n, HOPS);
    } else {
      MoreTurns(routes, rq, w, HOPS, n);
    }
  }

  /** In general the report differs from the end of the walk only when the walk takes more than 16 turns. */
  lemma {:induction false} LimitLosesLongWalksOnly(routes: RouteMap, rq: Request, w: Walk, o: Outcome)
    requires WalkEnds(routes, rq, w, o)
    ensures WalkFor(routes, rq, w, HOPS).Ended? ==> Decide(routes, rq, w) == ReportOf(o.decision, o.at)
    ensures WalkFor(routes, rq, w, HOPS).Exhausted? ==> Decide(routes, rq, w).decision == NotFound
  {
    var n: nat :| WalkFor(routes, rq, w, n) == o;
    if WalkFor(routes, rq, w, HOPS).Ended? {
      if n <= HOPS {
        MoreTurns(routes, rq, w, n, HOPS);
      } else {
        MoreTurns(routes, rq, w, HOPS, n);
      }
    }
  }

  // --- seventeen routes ---

  /** The name of the k-th route of the chain. */
  function ChainName(k: nat): (s: string)
    ensures |s| == k
  {
    seq(k, _ => 'r')
  }

  function ChainTarget(k: nat): Target {
    if k < 16 then ToRoute(ChainName(k + 1)) else ToReturn(200, None)
  }

  /** Seventeen routes, each leading to the next, the last to a `return`. */
  function Chain(): RouteMap {
    map s | s in ChainNames() :: [Step(None, None, [], ChainTarget(|s|))]
  }

  function ChainNames(): set<string> {
    set k | 0 <= k <= 16 :: ChainName(k)
  }

  lemma {:induction false} ChainHop(rq: Request, w: Walk, k: nat)
    requires k <= 16 && w.route == ChainName(k)
    ensures k < 16 ==> TakeHop(Chain(), rq, w) == Jumps(w.(route := ChainName(k + 1)))
    ensures k == 16 ==> TakeHop(Chain(), rq, w) == Ends(Decided(ToReturn(200, None)), w)
  {
    assert ChainName(k) in ChainNames();
    assert w.ops + [] == w.ops;
  }

  lemma {:induction false} ChainWalk(rq: Request, w: Walk, k: nat)
    requires k <= 16 && w.route == ChainName(k)
    ensures WalkFor(Chain(), rq, w, 17 - k) == Ended(Decided(ToReturn(200, None)), w.(route := ChainName(16)))
    ensures WalkFor(Chain(), rq, w, 16 - k).Exhausted?
    decreases 16 - k
  {
    ChainHop(rq, w, k);
    if k < 16 {
      ChainWalk(rq, w.(route := ChainName(k + 1)), k + 1);
    }
  }

  /** One route more and a walk that ends is reported as not found. */
  lemma {:induction false} SeventeenRoutesAreTooMany(rq: Request, path: seq<byte>, query: seq<byte>)
    ensures var w := Arrival(ChainName(0), path, query);
      WalkEnds(Chain(), rq, w, Ended(Decided(ToReturn(200, None)), w.(route := ChainName(16))))
      && Decide(Chain(), rq, w).decision == NotFound
  {
    ChainWalk(rq, Arrival(ChainName(0), path, query), 0);
  }
}
