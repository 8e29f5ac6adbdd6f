/** Inline-application lifting and the checks that make a configuration fit to compile. */
module Validate {
  import opened Bytes
  import opened Config

  datatype Reason =
    | NameCollision | NotOneTerminal | UnknownApplication | UnknownRoute | StatusOutOfRange | LocationNeedsRedirect
    | LocationAlone | ControlByte | SharePathCount | FallbackAlone | SourcesExposed | NoListener | ListenerTarget
    | EmptyRoute | ShadowedSteps | BadApplication | BadSettings

  datatype ConfigError = Invalid(path: string, reason: Reason)

  // --- names ---

  function Digit(d: nat): char
    requires d < 10
  {
    ('0' as int + d) as char
  }

  function Decimal(n: nat): string {
    if n < 10 then [Digit(n)] else Decimal(n / 10) + [Digit(n % 10)]
  }

  /** The name given to an inline application of step i. */
  function StepName(route: string, i: nat): string { route + "[" + Decimal(i) + "]" }

  function FallbackName(name: string): string { name + ".fallback" }

  function NameAt(name: string, d: nat): string
    decreases d
  {
    if d == 0 then name else NameAt(FallbackName(name), d - 1)
  }

  predicate Digits(s: string) {
    |s| > 0 && forall i | 0 <= i < |s| :: '0' <= s[i] <= '9'
  }

  /** The number that digits stand for. */
  function NumberOf(s: string): int {
    if s == "" then 0 else 10 * NumberOf(s[..|s| - 1]) + (s[|s| - 1] as int - '0' as int)
  }

  lemma {:induction false} DecimalDigits(n: nat)
    ensures Digits(Decimal(n)) && NumberOf(Decimal(n)) == n
  {
    if n >= 10 {
      DecimalDigits(n / 10);
      var s := Decimal(n);
      assert s[..|s| - 1] == Decimal(n / 10);
    } else {
      assert [Digit(n)][..0] == "";
    }
  }

  lemma {:induction false} DecimalInjective(m: nat, n: nat)
    requires Decimal(m) == Decimal(n)
    ensures m == n
  {
    DecimalDigits(m);
    DecimalDigits(n);
  }

  lemma {:induction false} StepNameInjective(r: string, i: nat, q: string, j: nat)
    requires StepName(r, i) == StepName(q, j) && |r| <= |q|
    ensures r == q && i == j
  {
    var s, a, b := StepName(r, i), Decimal(i), Decimal(j);
    DecimalDigits(i);
    DecimalDigits(j);
    assert s == r + "[" + a + "]" && s == q + "[" + b + "]";
    assert s[|q|] == '[';
    assert forall k | |r| < k < |s| - 1 :: s[k] == a[k - |r| - 1];
    assert |r| == |q|;
    assert s[..|r|] == r && s[..|q|] == q;
    assert s[|r| + 1..|s| - 1] == a && s[|q| + 1..|s| - 1] == b;
    DecimalInjective(i, j);
  }

  lemma {:induction false} NameAtNext(name: string, d: nat)
    ensures NameAt(name, d + 1) == FallbackName(NameAt(name, d))
    decreases d
  {
    if d > 0 {
      NameAtNext(FallbackName(name), d - 1);
    }
  }

  predicate Bracketed(s: string) { |s| > 0 && s[|s| - 1] == ']' }

  lemma {:induction false} OnlyStepsAreBracketed(a: string, d: nat)
    requires Bracketed(a)
    ensures Bracketed(NameAt(a, d)) <==> d == 0
  {
    if d > 0 {
      NameAtNext(a, d - 1);
      var s := NameAt(a, d);
      assert s[|s| - 1] == 'k';
    }
  }

  lemma {:induction false} NameAtInjective(a: string, d: nat, b: string, e: nat)
    requires Bracketed(a) && Bracketed(b) && NameAt(a, d) == NameAt(b, e)
    ensures a == b && d == e
    decreases d
  {
    OnlyStepsAreBracketed(a, d);
    OnlyStepsAreBracketed(b, e);
    if d > 0 {
      NameAtNext(a, d - 1);
      NameAtNext(b, e - 1);
      var s := NameAt(a, d);
      assert s[..|s| - 9] == NameAt(a, d - 1) && s[..|s| - 9] == NameAt(b, e - 1);
      NameAtInjective(a, d - 1, b, e - 1);
    }
  }

  /** No two inline applications of the configuration are given the same name. */
  lemma {:induction false} GeneratedNamesDiffer(r: string, i: nat, d: nat, q: string, j: nat, e: nat)
    requires NameAt(StepName(r, i), d) == NameAt(StepName(q, j), e)
    ensures r == q && i == j && d == e
  {
    NameAtInjective(StepName(r, i), d, StepName(q, j), e);
    if |r| <= |q| {
      StepNameInjective(r, i, q, j);
    } else {
      StepNameInjective(q, j, r, i);
    }
  }

  // --- lifting ---

  /** Depth d of the fallback chain. */
  function At(a: Action, d: nat): Option<Action>
    decreases d
  {
    if d == 0 then Some(a) else if a.fallback.None? then None else At(a.fallback.value, d - 1)
  }

  lemma {:induction false} AtNext(a: Action, d: nat)
    ensures At(a, d + 1) == if At(a, d).None? then None else At(a, d).value.fallback
    decreases d
  {
    if d > 0 && a.fallback.Some? {
      AtNext(a.fallback.value, d - 1);
    }
  }

  function InlineIn(a: Action, d: nat): Option<Application> {
    if At(a, d).Some? && At(a, d).value.application.Some? && At(a, d).value.application.value.Inline?
    then Some(At(a, d).value.application.value.app) else None
  }

  /** The inline application at depth d of step i of route r. */
  function InlineAt(routes: Routes, r: string, i: nat, d: nat): Option<Application> {
    if r in routes && i < |routes[r]| then InlineIn(routes[r][i].action, d) else None
  }

  /** n is the name generated for the inline application there. */
  predicate NamedFor(routes: Routes, n: string, r: string, i: nat, d: nat) {
    InlineAt(routes, r, i, d).Some? && n == NameAt(StepName(r, i), d)
  }

  datatype Lifted = Lifted(action: Action, applications: Applications)

  /** `extract_inline_apps`: the action with references only, and the map with the definitions moved in. */
  function Extract(a: Action, path: string, name: string, apps: Applications): Result<Lifted, ConfigError>
    decreases a
  {
    var inline := a.application.Some? && a.application.value.Inline?;
    if inline && name in apps then Err(Invalid(path + ".application", NameCollision))
    else
      var here := if inline then a.(application := Some(Name(name))) else a;
      var grown := if inline then apps[name := a.application.value.app] else apps;
      match a.fallback
      case None => Ok(Lifted(here, grown))
      case Some(f) =>
        match Extract(f, path + ".fallback", FallbackName(name), grown)
        case Err(e) => Err(e)
        case Ok(Lifted(g, more)) => Ok(Lifted(here.(fallback := Some(g)), more))
  }

  /** The action as it should come out. */
  function Lift(a: Action, name: string): Action
    decreases a
  {
    a.(application := if a.application.Some? && a.application.value.Inline? then Some(Name(name)) else a.application,
       fallback := if a.fallback.None? then None else Some(Lift(a.fallback.value, FallbackName(name))))
  }

  /** Every inline definition of the action is in the map under its name. */
  predicate Held(a: Action, name: string, apps: Applications)
    decreases a
  {
    && (a.application.Some? && a.application.value.Inline? ==> name in apps && apps[name] == a.application.value.app)
    && (a.fallback.Some? ==> Held(a.fallback.value, FallbackName(name), apps))
  }

  /** A name for some inline definition of the action is taken. */
  predicate Collides(a: Action, name: string, apps: Applications)
    decreases a
  {
    || (a.application.Some? && a.application.value.Inline? && name in apps)
    || (a.fallback.Some? && Collides(a.fallback.value, FallbackName(name), apps))
  }

  /** Nothing is overwritten. */
  ghost predicate Extends(apps: Applications, more: Applications) {
    forall n | n in apps :: n in more && more[n] == apps[n]
  }

  lemma {:induction false} HeldLater(a: Action, name: string, apps: Applications, more: Applications)
    requires Held(a, name, apps) && Extends(apps, more)
    ensures Held(a, name, more)
    decreases a
  {
    if a.fallback.Some? {
      HeldLater(a.fallback.value, FallbackName(name), apps, more);
    }
  }

  lemma {:induction false} OtherNameCannotCollide(a: Action, name: string, apps: Applications, n: string, app: Application)
    requires |n| < |name|
    ensures Collides(a, name, apps[n := app]) == Collides(a, name, apps)
    decreases a
  {
    if a.fallback.Some? {
      OtherNameCannotCollide(a.fallback.value, FallbackName(name), apps, n, app);
    }
  }

  /** Lifting fails exactly on a taken name; otherwise it rewrites references only, moves every inline definition in
      and overwrites none. */
  lemma {:induction false} ExtractLifts(a: Action, path: string, name: string, apps: Applications)
    ensures Extract(a, path, name, apps).Err? <==> Collides(a, name, apps)
    ensures Extract(a, path, name, apps).Ok? ==>
      var r := Extract(a, path, name, apps).value;
      r.action == Lift(a, name) && Extends(apps, r.applications) && Held(a, name, r.applications)
    decreases a
  {
    var inline := a.application.Some? && a.application.value.Inline?;
    if a.fallback.Some? {
      if inline {
        OtherNameCannotCollide(a.fallback.value, FallbackName(name), apps, name, a.application.value.app);
        ExtractLifts(a.fallback.value, path + ".fallback", FallbackName(name), apps[name := a.application.value.app]);
      } else {
        ExtractLifts(a.fallback.value, path + ".fallback", FallbackName(name), apps);
      }
    }
  }

  /** Only its own names matter to an action. */
  lemma {:induction false} CollidesSame(a: Action, name: string, apps: Applications, more: Applications)
    requires forall d: nat :: NameAt(name, d) in apps <==> NameAt(name, d) in more
    ensures Collides(a, name, apps) == Collides(a, name, more)
    decreases a
  {
    assert NameAt(name, 0) == name;
    if a.fallback.Some? {
      forall d: nat
        ensures NameAt(FallbackName(name), d) in apps <==> NameAt(FallbackName(name), d) in more
      {
        assert NameAt(name, d + 1) == NameAt(FallbackName(name), d);
      }
      CollidesSame(a.fallback.value, FallbackName(name), apps, more);
    }
  }

  lemma {:induction false} ExtractAdds(a: Action, path: string, name: string, apps: Applications, n: string) returns (d: nat)
    requires Extract(a, path, name, apps).Ok? && n in Extract(a, path, name, apps).value.applications && n !in apps
    ensures n == NameAt(name, d) && InlineIn(a, d).Some?
    decreases a
  {
    var inline := a.application.Some? && a.application.value.Inline?;
    var grown := if inline then apps[name := a.application.value.app] else apps;
    if n in grown {
      d := 0;
    } else {
      var e := ExtractAdds(a.fallback.value, path + ".fallback", FallbackName(name), grown, n);
      d := e + 1;
      assert At(a, d) == At(a.fallback.value, e);
    }
  }

  /** The steps looked at so far: all of the routes in `done`, and of route `now` the first k. */
  predicate Seen(r: string, i: nat, done: set<string>, now: string, k: nat) {
    r in done || (r == now && i < k)
  }

  /** Every application is a named one or was inline in a step looked at. */
  ghost predicate Traced(routes: Routes, named: Applications, apps: Applications, done: set<string>, now: string, k: nat) {
    forall n | n in apps && n !in named ::
      exists r: string, i: nat, d: nat :: Seen(r, i, done, now, k) && NamedFor(routes, n, r, i, d)
  }

  /** So a step not yet looked at can only collide with a named application. */
  lemma {:induction false} OnlyNamedCollide(routes: Routes, a: Action, named: Applications, apps: Applications,
                                            done: set<string>, now: string, k: nat)
    requires Traced(routes, named, apps, done, now, k) && Extends(named, apps) && now !in done
    ensures Collides(a, StepName(now, k), apps) == Collides(a, StepName(now, k), named)
  {
    forall d: nat
      ensures NameAt(StepName(now, k), d) in named <==> NameAt(StepName(now, k), d) in apps
    {
      var n := NameAt(StepName(now, k), d);
      if n in apps && n !in named {
        var r: string, i: nat, e: nat :| Seen(r, i, done, now, k) && NamedFor(routes, n, r, i, e);
        GeneratedNamesDiffer(now, k, d, r, i, e);
      }
    }
    CollidesSame(a, StepName(now, k), named, apps);
  }

  lemma {:induction false} TracedOn(routes: Routes, named: Applications, apps: Applications, more: Applications,
                                    done: set<string>, now: string, k: nat, path: string)
    requires Traced(routes, named, apps, done, now, k) && now in routes && k < |routes[now]|
    requires var e := Extract(routes[now][k].action, path, StepName(now, k), apps); e.Ok? && more == e.value.applications
    ensures Traced(routes, named, more, done, now, k + 1)
  {
    forall n | n in more && n !in named
      ensures exists r: string, i: nat, d: nat :: Seen(r, i, done, now, k + 1) && NamedFor(routes, n, r, i, d)
    {
      if n in apps {
        var r: string, i: nat, d: nat :| Seen(r, i, done, now, k) && NamedFor(routes, n, r, i, d);
        assert Seen(r, i, done, now, k + 1);
      } else {
        var d := ExtractAdds(routes[now][k].action, path, StepName(now, k), apps, n);
        assert NamedFor(routes, n, now, k, d) && Seen(now, k, done, now, k + 1);
      }
    }
  }

  lemma {:induction false} TracedNext(routes: Routes, named: Applications, apps: Applications, done: set<string>,
                                      now: string, k: nat, next: string)
    requires Traced(routes, named, apps, done, now, k)
    ensures Traced(routes, named, apps, done + {now}, next, 0)
  {
    forall n | n in apps && n !in named
      ensures exists r: string, i: nat, d: nat :: Seen(r, i, done + {now}, next, 0) && NamedFor(routes, n, r, i, d)
    {
      var r: string, i: nat, d: nat :| Seen(r, i, done, now, k) && NamedFor(routes, n, r, i, d);
      assert Seen(r, i, done + {now}, next, 0);
    }
  }

  /** Some inline application of the steps would take the name of a named one. */
  predicate StepsCollide(route: string, steps: seq<RouteStep>, named: Applications) {
    exists i :: 0 <= i < |steps| && Collides(steps[i].action, StepName(route, i), named)
  }

  predicate RoutesCollide(routes: Routes, named: Applications) {
    exists r :: r in routes && StepsCollide(r, routes[r], named)
  }

  // --- checks ---

  function Terminals(a: Action): nat {
    (if a.application.Some? then 1 else 0) + (if a.route.Some? then 1 else 0)
    + (if a.share.Some? then 1 else 0) + (if a.status.Some? then 1 else 0)
  }

  predicate HasControl(s: string) { '\r' in s || '\n' in s || '\0' in s }

  predicate HeadersClean(a: Action) {
    a.responseHeaders.Some? ==>
      forall i | 0 <= i < |a.responseHeaders.value| ::
        var (name, value) := a.responseHeaders.value[i];
        !HasControl(name) && (value.Some? ==> !HasControl(value.value))
  }

  function SourcesEnabled(s: ServeSources): bool {
    match s case NoSources => false case AllSources => true case OnlySources(exts) => |exts| > 0
  }

  /** `action_reaches_application`. */
  predicate ReachesApplication(a: Action)
    decreases a
  {
    a.application.Some? || (a.fallback.Some? && ReachesApplication(a.fallback.value))
  }

  /** `validate_action`: the first rule that the action breaks. */
  function CheckAction(a: Action, path: string, routes: set<string>, apps: set<string>): Option<ConfigError>
    decreases a
  {
    if Terminals(a) != 1 then Some(Invalid(path, NotOneTerminal))
    else if a.application.Some? && a.application.value.Name? && a.application.value.name !in apps
    then Some(Invalid(path + ".application", UnknownApplication))
    else if a.route.Some? && a.route.value !in routes then Some(Invalid(path + ".route", UnknownRoute))
    else if a.status.Some? && !(100 <= a.status.value <= 599) then Some(Invalid(path + ".return", StatusOutOfRange))
    else if a.status.Some? && a.location.Some? && !(300 <= a.status.value <= 399)
    then Some(Invalid(path + ".location", LocationNeedsRedirect))
    else if a.status.None? && a.location.Some? then Some(Invalid(path + ".location", LocationAlone))
    else if a.location.Some? && HasControl(a.location.value) then Some(Invalid(path + ".location", ControlByte))
    else if !HeadersClean(a) then Some(Invalid(path + ".response_headers", ControlByte))
    else if a.share.Some? && a.share.value.Full? && |a.share.value.paths| != 1
    then Some(Invalid(path + ".share", SharePathCount))
    else if a.fallback.Some? && a.share.None? then Some(Invalid(path + ".fallback", FallbackAlone))
    else if a.share.Some? && a.share.value.Full? && SourcesEnabled(a.share.value.serveSources)
            && a.fallback.Some? && ReachesApplication(a.fallback.value)
    then Some(Invalid(path + ".share", SourcesExposed))
    else if a.fallback.Some? then CheckAction(a.fallback.value, path + ".fallback", routes, apps)
    else None
  }

  /** The target application, if it is a reference, is there. */
  predicate TargetKnown(a: Action, apps: set<string>) {
    a.application.Some? && a.application.value.Name? ==> a.application.value.name in apps
  }

  predicate JustOne(p: bool, q: bool, r: bool, s: bool) {
    (p || q || r || s) && !(p && q) && !(p && r) && !(p && s) && !(q && r) && !(q && s) && !(r && s)
  }

  /** No carriage return, line feed or NUL anywhere. */
  predicate OneLine(s: string) {
    forall i | 0 <= i < |s| :: s[i] as int != 13 && s[i] as int != 10 && s[i] as int != 0
  }

  lemma {:induction false} ControlMeans(s: string)
    ensures HasControl(s) <==> !OneLine(s)
  {
  }

  predicate HeadersAreLines(ops: seq<HeaderOp>) {
    forall i | 0 <= i < |ops| :: OneLine(ops[i].0) && (ops[i].1.Some? ==> OneLine(ops[i].1.value))
  }

  lemma {:induction false} HeadersMean(a: Action)
    ensures HeadersClean(a) <==> (a.responseHeaders.Some? ==> HeadersAreLines(a.responseHeaders.value))
  {
    if a.responseHeaders.Some? {
      var ops := a.responseHeaders.value;
      forall i | 0 <= i < |ops|
        ensures HasControl(ops[i].0) <==> !OneLine(ops[i].0)
        ensures ops[i].1.Some? ==> (HasControl(ops[i].1.value) <==> !OneLine(ops[i].1.value))
      {
        ControlMeans(ops[i].0);
        if ops[i].1.Some? { ControlMeans(ops[i].1.value); }
      }
    }
  }

  /** One terminal, a known route, headers and location that stay on their lines, and only a share has a fallback. */
  predicate Shaped(a: Action, routes: set<string>) {
    && JustOne(a.application.Some?, a.route.Some?, a.share.Some?, a.status.Some?)
    && (a.route.Some? ==> a.route.value in routes)
    && (a.status.Some? ==> 100 <= a.status.value <= 599)
    && (a.location.Some? ==> a.status.Some? && 300 <= a.status.value <= 399 && OneLine(a.location.value))
    && (a.responseHeaders.Some? ==> HeadersAreLines(a.responseHeaders.value))
    && (a.share.Some? && a.share.value.Full? ==> |a.share.value.paths| == 1)
    && (a.fallback.Some? ==> a.share.Some?)
  }

  /** Fit to compile, at this depth. */
  predicate Fit(a: Action, routes: set<string>, apps: set<string>) {
    Shaped(a, routes) && TargetKnown(a, apps)
  }

  predicate ApplicationAt(a: Action, d: nat) {
    At(a, d).Some? && At(a, d).value.application.Some?
  }

  /** A share that serves raw sources has no application anywhere below it in its fallback chain. */
  ghost predicate SourcesSafe(a: Action) {
    a.share.Some? && a.share.value.Full? && a.share.value.serveSources != NoSources
    && a.share.value.serveSources != OnlySources([]) ==>
      forall d: nat :: ApplicationAt(a, d) ==> d == 0
  }

  lemma {:induction false} ReachesMeansBelow(a: Action)
    ensures ReachesApplication(a) <==> exists d: nat :: ApplicationAt(a, d)
    decreases a
  {
    if a.application.Some? {
      assert ApplicationAt(a, 0);
    } else if a.fallback.Some? {
      var f := a.fallback.value;
      ReachesMeansBelow(f);
      BelowMeansFallback(a);
    } else {
      assert forall d: nat :: ApplicationAt(a, d) ==> d == 0;
    }
  }

  lemma {:induction false} BelowMeansFallback(a: Action)
    requires a.fallback.Some?
    ensures (exists d: nat :: d > 0 && ApplicationAt(a, d)) <==> (exists d: nat :: ApplicationAt(a.fallback.value, d))
  {
    var f := a.fallback.value;
    if exists d: nat :: ApplicationAt(f, d) {
      var d: nat :| ApplicationAt(f, d);
      assert ApplicationAt(a, d + 1);
    }
    if exists d: nat :: d > 0 && ApplicationAt(a, d) {
      var d: nat :| d > 0 && ApplicationAt(a, d);
      var e: nat := d - 1;
      assert ApplicationAt(f, e);
    }
  }

  ghost predicate FitAll(a: Action, routes: set<string>, apps: set<string>) {
    forall d: nat :: At(a, d).Some? ==> Fit(At(a, d).value, routes, apps) && SourcesSafe(At(a, d).value)
  }

  lemma {:induction false} FitBelow(a: Action, routes: set<string>, apps: set<string>)
    requires a.fallback.Some?
    ensures FitAll(a, routes, apps) <==>
      Fit(a, routes, apps) && SourcesSafe(a) && FitAll(a.fallback.value, routes, apps)
  {
    var f := a.fallback.value;
    assert At(a, 0) == Some(a);
    assert forall d: nat :: d > 0 ==> At(a, d) == At(f, d - 1);
    if FitAll(a, routes, apps) {
      forall d: nat | At(f, d).Some?
        ensures Fit(At(f, d).value, routes, apps) && SourcesSafe(At(f, d).value)
      {
        assert At(a, d + 1) == At(f, d);
      }
    }
  }

  lemma {:induction false} FitAlone(a: Action, routes: set<string>, apps: set<string>)
    requires a.fallback.None?
    ensures FitAll(a, routes, apps) <==> Fit(a, routes, apps)
  {
    assert At(a, 0) == Some(a);
    assert forall d: nat :: d > 0 ==> At(a, d).None?;
  }

  lemma {:induction false} SourcesSafeHere(a: Action)
    ensures SourcesSafe(a) <==>
      !(a.share.Some? && a.share.value.Full? && SourcesEnabled(a.share.value.serveSources)
        && a.fallback.Some? && ReachesApplication(a.fallback.value))
  {
    if a.fallback.Some? {
      ReachesMeansBelow(a.fallback.value);
      BelowMeansFallback(a);
    } else {
      assert forall d: nat :: ApplicationAt(a, d) ==> d == 0;
    }
  }

  /** The checks pass exactly on actions that are fit at every depth and expose no application's sources. */
  lemma {:induction false} CheckMeansFit(a: Action, path: string, routes: set<string>, apps: set<string>)
    ensures CheckAction(a, path, routes, apps).None? <==> FitAll(a, routes, apps)
    decreases a
  {
    SourcesSafeHere(a);
    HeadersMean(a);
    if a.location.Some? {
      ControlMeans(a.location.value);
    }
    if a.fallback.Some? {
      FitBelow(a, routes, apps);
      CheckMeansFit(a.fallback.value, path + ".fallback", routes, apps);
    } else {
      FitAlone(a, routes, apps);
    }
  }

  // --- what an error says ---

  /** The action breaks the rule. */
  ghost predicate Breaks(a: Action, routes: set<string>, apps: set<string>, rule: Reason) {
    match rule
    case NotOneTerminal => !JustOne(a.application.Some?, a.route.Some?, a.share.Some?, a.status.Some?)
    case UnknownApplication => !TargetKnown(a, apps)
    case UnknownRoute => a.route.Some? && a.route.value !in routes
    case StatusOutOfRange => a.status.Some? && !(100 <= a.status.value <= 599)
    case LocationNeedsRedirect => a.location.Some? && a.status.Some? && !(300 <= a.status.value <= 399)
    case LocationAlone => a.location.Some? && a.status.None?
    case ControlByte =>
      (a.location.Some? && !OneLine(a.location.value))
      || (a.responseHeaders.Some? && !HeadersAreLines(a.responseHeaders.value))
    case SharePathCount => a.share.Some? && a.share.value.Full? && |a.share.value.paths| != 1
    case FallbackAlone => a.fallback.Some? && a.share.None?
    case SourcesExposed => !SourcesSafe(a)
    case _ => false
  }

  /** The error is one of the action at depth d: it names a place inside that action, and a rule that it breaks. */
  ghost predicate ErrorAt(a: Action, path: string, routes: set<string>, apps: set<string>, e: ConfigError, d: nat) {
    At(a, d).Some? && NameAt(path, d) <= e.path && Breaks(At(a, d).value, routes, apps, e.reason)
  }

  /** Every error of the checks is a true one. */
  lemma {:induction false} ErrorIsTrue(a: Action, path: string, routes: set<string>, apps: set<string>) returns (d: nat)
    requires CheckAction(a, path, routes, apps).Some?
    ensures ErrorAt(a, path, routes, apps, CheckAction(a, path, routes, apps).value, d)
    decreases a
  {
    d := 0;
    SourcesSafeHere(a);
    HeadersMean(a);
    if a.location.Some? {
      ControlMeans(a.location.value);
    }
    var e := CheckAction(a, path, routes, apps).value;
    if !(path <= e.path && Breaks(a, routes, apps, e.reason)) {
      d := ErrorIsTrue(a.fallback.value, FallbackName(path), routes, apps);
      d := d + 1;
    }
  }

  // --- the lifting of a whole configuration ---

  function NamesOf(a: Action, name: string): set<string>
    decreases a
  {
    (if a.application.Some? && a.application.value.Inline? then {name} else {})
    + (if a.fallback.Some? then NamesOf(a.fallback.value, FallbackName(name)) else {})
  }

  /** The names the inline applications of the routes are given. */
  function GeneratedNames(routes: Routes): set<string> {
    set r: string, i: nat, n: string |
      r in routes && 0 <= i < |routes[r]| && n in NamesOf(routes[r][i].action, StepName(r, i)) :: n
  }

  lemma {:induction false} NameIsOf(a: Action, name: string, d: nat)
    requires InlineIn(a, d).Some?
    ensures NameAt(name, d) in NamesOf(a, name)
    decreases d
  {
    if d > 0 {
      assert At(a, d) == At(a.fallback.value, d - 1);
      NameIsOf(a.fallback.value, FallbackName(name), d - 1);
    }
  }

  lemma {:induction false} DepthOfName(a: Action, name: string, n: string) returns (d: nat)
    requires n in NamesOf(a, name)
    ensures n == NameAt(name, d) && InlineIn(a, d).Some?
    decreases a
  {
    if a.application.Some? && a.application.value.Inline? && n == name {
      d := 0;
    } else {
      var e := DepthOfName(a.fallback.value, FallbackName(name), n);
      d := e + 1;
      assert At(a, d) == At(a.fallback.value, e);
    }
  }

  lemma {:induction false} GeneratedMeans(routes: Routes, n: string)
    ensures n in GeneratedNames(routes) <==> exists r: string, i: nat, d: nat :: NamedFor(routes, n, r, i, d)
  {
    if n in GeneratedNames(routes) {
      var r: string, i: nat :| r in routes && 0 <= i < |routes[r]| && n in NamesOf(routes[r][i].action, StepName(r, i));
      var d := DepthOfName(routes[r][i].action, StepName(r, i), n);
      assert NamedFor(routes, n, r, i, d);
    }
    if r: string, i: nat, d: nat :| NamedFor(routes, n, r, i, d) {
      NameIsOf(routes[r][i].action, StepName(r, i), d);
    }
  }

  /** The inline application that is given the name n. */
  ghost function DefinitionFor(routes: Routes, n: string): Application
    requires n in GeneratedNames(routes)
  {
    GeneratedMeans(routes, n);
    var r: string, i: nat, d: nat :| NamedFor(routes, n, r, i, d);
    InlineAt(routes, r, i, d).value
  }

  lemma {:induction false} OneDefinitionEach(routes: Routes, n: string, r: string, i: nat, d: nat)
    requires NamedFor(routes, n, r, i, d)
    ensures n in GeneratedNames(routes) && DefinitionFor(routes, n) == InlineAt(routes, r, i, d).value
  {
    GeneratedMeans(routes, n);
    var q: string, j: nat, e: nat :| NamedFor(routes, n, q, j, e)
                                     && DefinitionFor(routes, n) == InlineAt(routes, q, j, e).value;
    GeneratedNamesDiffer(r, i, d, q, j, e);
  }

  function LiftedStep(route: string, i: nat, step: RouteStep): RouteStep {
    step.(action := Lift(step.action, StepName(route, i)))
  }

  function LiftedSteps(route: string, steps: seq<RouteStep>): seq<RouteStep> {
    seq(|steps|, i requires 0 <= i < |steps| => LiftedStep(route, i, steps[i]))
  }

  function LiftedRoutes(routes: Routes): Routes {
    map r | r in routes :: LiftedSteps(r, routes[r])
  }

  /** The named applications and, under their generated names, the inline ones. */
  ghost function LiftedApps(routes: Routes, named: Applications): Applications {
    named + map n | n in GeneratedNames(routes) :: DefinitionFor(routes, n)
  }

  lemma {:induction false} LiftAt(a: Action, name: string, d: nat)
    ensures At(Lift(a, name), d) == if At(a, d).None? then None else Some(Lift(At(a, d).value, NameAt(name, d)))
    decreases d
  {
    if d > 0 && a.fallback.Some? {
      LiftAt(a.fallback.value, FallbackName(name), d - 1);
    }
  }

  lemma {:induction false} HeldAt(a: Action, name: string, apps: Applications, d: nat)
    requires Held(a, name, apps) && At(a, d).Some?
    ensures Held(At(a, d).value, NameAt(name, d), apps)
    decreases d
  {
    if d > 0 {
      HeldAt(a.fallback.value, FallbackName(name), apps, d - 1);
    }
  }

  ghost predicate StepsLifted(route: string, before: seq<RouteStep>, after: seq<RouteStep>, n: nat, apps: Applications) {
    && |after| == |before| && n <= |before|
    && (forall i | 0 <= i < n :: after[i] == before[i].(action := Lift(before[i].action, StepName(route, i)))
                                 && Held(before[i].action, StepName(route, i), apps))
    && (forall i | n <= i < |before| :: after[i] == before[i])
  }

  lemma {:induction false} StepsLiftedLater(route: string, before: seq<RouteStep>, after: seq<RouteStep>, n: nat,
                                            apps: Applications, more: Applications)
    requires StepsLifted(route, before, after, n, apps) && Extends(apps, more)
    ensures StepsLifted(route, before, after, n, more)
  {
    forall i | 0 <= i < n
      ensures Held(before[i].action, StepName(route, i), more)
    {
      HeldLater(before[i].action, StepName(route, i), apps, more);
    }
  }

  /** The loop over one route's steps. It fails exactly on a name already taken by a named application. */
  method ExtractSteps(route: string, steps: seq<RouteStep>, apps: Applications, ghost routes: Routes,
                      ghost named: Applications, ghost done: set<string>)
      returns (r: Result<(seq<RouteStep>, Applications), ConfigError>)
    requires route in routes && routes[route] == steps
    requires Extends(named, apps) && route !in done && Traced(routes, named, apps, done, route, 0)
    ensures r.Err? <==> StepsCollide(route, steps, named)
    ensures r.Ok? ==> Extends(apps, r.value.1) && StepsLifted(route, steps, r.value.0, |steps|, r.value.1)
    ensures r.Ok? ==> Traced(routes, named, r.value.1, done, route, |steps|)
  {
    var out, grown := steps, apps;
    for i := 0 to |steps|
      invariant Extends(apps, grown) && StepsLifted(route, steps, out, i, grown)
      invariant Traced(routes, named, grown, done, route, i)
      invariant forall j | 0 <= j < i :: !Collides(steps[j].action, StepName(route, j), named)
    {
      var path := "routes." + StepName(route, i) + ".action";
      var lifted := Extract(steps[i].action, path, StepName(route, i), grown);
      ExtractLifts(steps[i].action, path, StepName(route, i), grown);
      OnlyNamedCollide(routes, steps[i].action, named, grown, done, route, i);
      match lifted {
        case Err(e) => return Err(e);
        case Ok(Lifted(action, more)) =>
          StepsLiftedLater(route, steps, out, i, grown, more);
          TracedOn(routes, named, grown, more, done, route, i, path);
          out := out[i := steps[i].(action := action)];
          grown := more;
      }
    }
    return Ok((out, grown));
  }

  ghost predicate RoutesLifted(before: Routes, after: Routes, done: set<string>, apps: Applications) {
    && after.Keys == before.Keys
    && (forall r | r in before && r in done :: StepsLifted(r, before[r], after[r], |before[r]|, apps))
    && (forall r | r in before && r !in done :: after[r] == before[r])
  }

  lemma {:induction false} RoutesLiftedLater(before: Routes, after: Routes, done: set<string>, apps: Applications,
                                             more: Applications)
    requires RoutesLifted(before, after, done, apps) && Extends(apps, more)
    ensures RoutesLifted(before, after, done, more)
  {
    forall r | r in before && r in done
      ensures StepsLifted(r, before[r], after[r], |before[r]|, more)
    {
      StepsLiftedLater(r, before[r], after[r], |before[r]|, apps, more);
    }
  }

  /** The lifting is determined: every definition under its own name, and nothing else. */
  lemma {:induction false} LiftingIs(routes: Routes, named: Applications, after: Routes, apps: Applications)
    requires Extends(named, apps) && RoutesLifted(routes, after, routes.Keys, apps)
    requires Traced(routes, named, apps, routes.Keys, "", 0)
    ensures after == LiftedRoutes(routes) && apps == LiftedApps(routes, named)
  {
    RoutesAreLifted(routes, after, apps);
    forall n
      ensures n in apps <==> n in LiftedApps(routes, named)
      ensures n in apps ==> apps[n] == LiftedApps(routes, named)[n]
    {
      NameIsLifted(routes, named, after, apps, n);
    }
    SameMap(apps, LiftedApps(routes, named));
  }

  lemma {:induction false} SameMap(a: Applications, b: Applications)
    requires forall n :: (n in a <==> n in b) && (n in a ==> a[n] == b[n])
    ensures a == b
  {
  }

  lemma {:induction false} RoutesAreLifted(routes: Routes, after: Routes, apps: Applications)
    requires RoutesLifted(routes, after, routes.Keys, apps)
    ensures after == LiftedRoutes(routes)
  {
    forall r | r in routes
      ensures after[r] == LiftedRoutes(routes)[r]
    {
      assert StepsLifted(r, routes[r], after[r], |routes[r]|, apps);
    }
  }

  lemma {:induction false} NameIsLifted(routes: Routes, named: Applications, after: Routes, apps: Applications, n: string)
    requires Extends(named, apps) && RoutesLifted(routes, after, routes.Keys, apps)
    requires Traced(routes, named, apps, routes.Keys, "", 0)
    ensures n in apps <==> n in LiftedApps(routes, named)
    ensures n in apps ==> apps[n] == LiftedApps(routes, named)[n]
  {
    GeneratedMeans(routes, n);
    if r: string, i: nat, d: nat :| NamedFor(routes, n, r, i, d) {
      assert StepsLifted(r, routes[r], after[r], |routes[r]|, apps);
      HeldAt(routes[r][i].action, StepName(r, i), apps, d);
      OneDefinitionEach(routes, n, r, i, d);
    }
  }

  /** The routes in `done` are lifted. */
  ghost predicate LiftedUpTo(routes: Routes, named: Applications, out: Routes, grown: Applications, done: set<string>) {
    && Extends(named, grown) && RoutesLifted(routes, out, done, grown)
    && (forall next :: Traced(routes, named, grown, done, next, 0))
    && (forall q | q in routes && q in done :: !StepsCollide(q, routes[q], named))
  }

  lemma {:induction false} LiftedOneMore(routes: Routes, named: Applications, out: Routes, grown: Applications,
                                         done: set<string>, name: string, steps: seq<RouteStep>, more: Applications)
    requires LiftedUpTo(routes, named, out, grown, done) && name in routes && name !in done
    requires Extends(grown, more) && StepsLifted(name, routes[name], steps, |routes[name]|, more)
    requires Traced(routes, named, more, done, name, |routes[name]|) && !StepsCollide(name, routes[name], named)
    ensures LiftedUpTo(routes, named, out[name := steps], more, done + {name})
  {
    RoutesLiftedLater(routes, out, done, grown, more);
    forall next
      ensures Traced(routes, named, more, done + {name}, next, 0)
    {
      TracedNext(routes, named, more, done, name, |routes[name]|, next);
    }
  }

  lemma {:induction false} AllLifted(routes: Routes, named: Applications, out: Routes, grown: Applications)
    requires LiftedUpTo(routes, named, out, grown, routes.Keys)
    ensures out == LiftedRoutes(routes) && grown == LiftedApps(routes, named) && !RoutesCollide(routes, named)
    ensures Extends(named, grown) && RoutesLifted(routes, out, routes.Keys, grown)
  {
    assert Traced(routes, named, grown, routes.Keys, "", 0);
    LiftingIs(routes, named, out, grown);
  }

  lemma {:induction false} NothingLifted(routes: Routes, named: Applications)
    ensures LiftedUpTo(routes, named, routes, named, {})
  {
  }

  /** The loop over the routes, in any order. */
  method ExtractRoutes(routes: Routes, apps: Applications) returns (r: Result<(Routes, Applications), ConfigError>)
    ensures r.Err? <==> RoutesCollide(routes, apps)
    ensures r.Ok? ==> r.value == (LiftedRoutes(routes), LiftedApps(routes, apps))
    ensures r.Ok? ==> Extends(apps, r.value.1) && RoutesLifted(routes, r.value.0, routes.Keys, r.value.1)
  {
    var out, grown, todo := routes, apps, routes.Keys;
    ghost var done := {};
    NothingLifted(routes, apps);
    while todo != {}
      invariant todo <= routes.Keys && done == routes.Keys - todo && LiftedUpTo(routes, apps, out, grown, done)
      decreases |todo|
    {
      var name :| name in todo;
      assert Traced(routes, apps, grown, done, name, 0);
      var lifted := ExtractSteps(name, routes[name], grown, routes, apps, done);
      match lifted {
        case Err(e) => return Err(e);
        case Ok((steps, more)) =>
          LiftedOneMore(routes, apps, out, grown, done, name, steps, more);
          out := out[name := steps];
          grown := more;
          todo := todo - {name};
          done := done + {name};
      }
    }
    assert done == routes.Keys;
    AllLifted(routes, apps, out, grown);
    return Ok((out, grown));
  }

  predicate ListenerOk(l: Listener, routes: Routes) {
    if l.route.Some? then !l.status && l.route.value in routes else l.status
  }

  /** The checks on one route: steps, none of them shadowed, all actions fit. */
  ghost predicate RouteOk(steps: seq<RouteStep>, routes: set<string>, apps: set<string>) {
    && |steps| > 0
    && (forall i | 0 <= i < |steps| - 1 :: steps[i].match_.Some?)
    && (forall i | 0 <= i < |steps| :: FitAll(steps[i].action, routes, apps))
  }

  /** An error of a route: it has no steps, a step stands behind a catch-all, or some action breaks the rule named, at the
      place named. */
  ghost predicate RouteError(name: string, steps: seq<RouteStep>, routes: set<string>, apps: set<string>, e: ConfigError) {
    || (|steps| == 0 && e.reason == EmptyRoute)
    || (exists i: nat :: i < |steps| - 1 && steps[i].match_.None? && e == Invalid("routes." + StepName(name, i), ShadowedSteps))
    || (exists i: nat, d: nat :: i < |steps|
          && ErrorAt(steps[i].action, "routes." + StepName(name, i) + ".action", routes, apps, e, d))
  }

  method CheckRoute(name: string, steps: seq<RouteStep>, routes: set<string>, apps: set<string>)
      returns (r: Option<ConfigError>)
    ensures r.None? <==> RouteOk(steps, routes, apps)
    ensures r.Some? ==> RouteError(name, steps, routes, apps, r.value)
  {
    if |steps| == 0 {
      return Some(Invalid("routes." + name, EmptyRoute));
    }
    for i := 0 to |steps|
      invariant forall j | 0 <= j < i :: j < |steps| - 1 ==> steps[j].match_.Some?
      invariant forall j | 0 <= j < i :: FitAll(steps[j].action, routes, apps)
    {
      if steps[i].match_.None? && i + 1 < |steps| {
        return Some(Invalid("routes." + StepName(name, i), ShadowedSteps));
      }
      var path := "routes." + StepName(name, i) + ".action";
      CheckMeansFit(steps[i].action, path, routes, apps);
      r := CheckAction(steps[i].action, path, routes, apps);
      if r.Some? {
        ghost var d := ErrorIsTrue(steps[i].action, path, routes, apps);
        return;
      }
    }
    return None;
  }

  // --- what is left of the meaning ---

  /** The application a reference denotes. */
  function Denoted(r: ApplicationRef, apps: Applications): Option<Application> {
    match r
    case Inline(app) => Some(app)
    case Name(n) => if n in apps then Some(apps[n]) else None
  }

  function Resolved(app: Application, cores: nat): Application {
    if app.processes.Auto? then app.(processes := Fixed(cores)) else app
  }

  /** The same application, but a number of processes left to the machine has become its number of cores. */
  predicate SameButAuto(before: Application, after: Application, cores: nat) {
    && after.module_ == before.module_ && after.settings == before.settings
    && (before.processes.Auto? ==> after.processes == Fixed(cores))
    && (!before.processes.Auto? ==> after.processes == before.processes)
  }

  function ResolveAll(apps: Applications, cores: nat): Applications {
    map n | n in apps :: Resolved(apps[n], cores)
  }

  /** The same action at some depth: a target that denoted an application still denotes it with only `auto` resolved,
      no inline definition is left, and nothing else has changed. */
  predicate SameHere(a: Action, b: Action, named: Applications, apps: Applications, cores: nat) {
    && b == a.(application := b.application, fallback := b.fallback)
    && (a.application.None? <==> b.application.None?) && (a.fallback.None? <==> b.fallback.None?)
    && (b.application.Some? ==> b.application.value.Name?)
    && (a.application.Some? && a.application.value.Name? ==> b.application == a.application)
    && (a.application.Some? && Denoted(a.application.value, named).Some? ==>
          Denoted(b.application.value, apps).Some?
          && SameButAuto(Denoted(a.application.value, named).value, Denoted(b.application.value, apps).value, cores))
  }

  lemma {:induction false} LiftKeepsMeaning(a: Action, name: string, named: Applications, apps: Applications, cores: nat,
                                            d: nat)
    requires Held(a, name, apps) && Extends(named, apps) && At(a, d).Some?
    ensures At(Lift(a, name), d).Some?
    ensures SameHere(At(a, d).value, At(Lift(a, name), d).value, named, ResolveAll(apps, cores), cores)
  {
    LiftAt(a, name, d);
    HeldAt(a, name, apps, d);
  }

  function NameIn(a: Action, d: nat): Option<string> {
    if At(a, d).Some? && At(a, d).value.application.Some? && At(a, d).value.application.value.Name?
    then Some(At(a, d).value.application.value.name) else None
  }

  /** The name referred to at depth d of step i of route r. */
  function ReferenceAt(routes: Routes, r: string, i: nat, d: nat): Option<string> {
    if r in routes && i < |routes[r]| then NameIn(routes[r][i].action, d) else None
  }

  /** A name without a definition has come to denote an inline application, by having its generated name. */
  ghost predicate Adopted(routes: Routes, n: string, apps: Applications, cores: nat) {
    exists r: string, i: nat, d: nat ::
      NamedFor(routes, n, r, i, d) && n in apps && SameButAuto(InlineAt(routes, r, i, d).value, apps[n], cores)
  }

  lemma {:induction false} UnnamedIsAdopted(routes: Routes, n: string, named: Applications, cores: nat)
    requires n in LiftedApps(routes, named) && n !in named
    ensures Adopted(routes, n, ResolveAll(LiftedApps(routes, named), cores), cores)
  {
    GeneratedMeans(routes, n);
    var r: string, i: nat, d: nat :| NamedFor(routes, n, r, i, d);
    OneDefinitionEach(routes, n, r, i, d);
  }

  /** What a validated configuration is, next to the one that was read. */
  ghost predicate Valid(c: Config, v: Validated, cores: nat) {
    && v.config.routes.Keys == c.routes.Keys && v.config.listeners == c.listeners
    && (forall l | l in c.listeners :: ListenerOk(c.listeners[l], v.config.routes))
    && (forall r | r in c.routes :: SameSteps(c, v, r))
    && (forall r | r in c.routes :: RouteOk(v.config.routes[r], v.config.routes.Keys, v.applications.Keys))
    && (forall n | n in c.applications ::
          n in v.applications && SameButAuto(c.applications[n], v.applications[n], cores))
    && (forall n | n in v.applications :: !v.applications[n].processes.Auto?)
    && (forall r, i, d: nat | r in c.routes && 0 <= i < |c.routes[r]| && At(c.routes[r][i].action, d).Some? ::
          Preserved(c, v, cores, r, i, d))
    && (forall r: string, i: nat, d: nat | ReferenceAt(c.routes, r, i, d).Some? ::
          ReferenceAt(c.routes, r, i, d).value in c.applications
          || Adopted(c.routes, ReferenceAt(c.routes, r, i, d).value, v.applications, cores))
  }

  /** Route r has kept its steps, whatever has become of their actions. */
  ghost predicate SameSteps(c: Config, v: Validated, r: string)
    requires r in c.routes
  {
    r in v.config.routes && |v.config.routes[r]| == |c.routes[r]|
  }

  /** Depth d of step i of route r means what it meant. */
  ghost predicate Preserved(c: Config, v: Validated, cores: nat, r: string, i: nat, d: nat)
    requires r in c.routes && i < |c.routes[r]| && At(c.routes[r][i].action, d).Some?
  {
    && r in v.config.routes && |v.config.routes[r]| == |c.routes[r]|
    && v.config.routes[r][i].match_ == c.routes[r][i].match_
    && At(v.config.routes[r][i].action, d).Some?
    && SameHere(At(c.routes[r][i].action, d).value, At(v.config.routes[r][i].action, d).value, c.applications,
                v.applications, cores)
  }

  /** What validation makes of a configuration that passes. */
  ghost function Outcome(c: Config, cores: nat): Validated {
    Validated(Config(c.listeners, LiftedRoutes(c.routes), ResolveAll(c.applications, cores)),
              ResolveAll(LiftedApps(c.routes, c.applications), cores))
  }

  lemma {:induction false} LiftedIsPreserved(c: Config, cores: nat)
    requires Extends(c.applications, LiftedApps(c.routes, c.applications))
    requires RoutesLifted(c.routes, LiftedRoutes(c.routes), c.routes.Keys, LiftedApps(c.routes, c.applications))
    ensures forall r, i, d: nat | r in c.routes && 0 <= i < |c.routes[r]| && At(c.routes[r][i].action, d).Some? ::
        Preserved(c, Outcome(c, cores), cores, r, i, d)
  {
    var v, routes, apps := Outcome(c, cores), LiftedRoutes(c.routes), LiftedApps(c.routes, c.applications);
    forall r, i, d: nat | r in c.routes && 0 <= i < |c.routes[r]| && At(c.routes[r][i].action, d).Some?
      ensures Preserved(c, v, cores, r, i, d)
    {
      assert StepsLifted(r, c.routes[r], routes[r], |c.routes[r]|, apps);
      LiftKeepsMeaning(c.routes[r][i].action, StepName(r, i), c.applications, apps, cores, d);
    }
  }

  /** Every reference of a passing configuration has a definition, of its own or of an inline application. */
  lemma {:induction false} ReferencesAreKnown(c: Config, cores: nat, r: string, i: nat, d: nat)
    requires r in c.routes && RouteOk(LiftedRoutes(c.routes)[r], c.routes.Keys, LiftedApps(c.routes, c.applications).Keys)
    requires ReferenceAt(c.routes, r, i, d).Some?
    ensures var n := ReferenceAt(c.routes, r, i, d).value;
      n in c.applications || Adopted(c.routes, n, Outcome(c, cores).applications, cores)
  {
    var n := ReferenceAt(c.routes, r, i, d).value;
    var a := c.routes[r][i].action;
    LiftAt(a, StepName(r, i), d);
    assert LiftedRoutes(c.routes)[r][i] == LiftedStep(r, i, c.routes[r][i]);
    assert Fit(At(Lift(a, StepName(r, i)), d).value, c.routes.Keys, LiftedApps(c.routes, c.applications).Keys);
    if n !in c.applications {
      UnnamedIsAdopted(c.routes, n, c.applications, cores);
    }
  }

  /** The checks after the lifting. */
  ghost predicate ChecksPass(c: Config, routes: Routes, apps: Applications, applicationOk: Application -> bool,
                             cores: nat) {
    && c.listeners.Keys != {}
    && (forall l | l in c.listeners :: ListenerOk(c.listeners[l], routes))
    && (forall r | r in routes :: RouteOk(routes[r], routes.Keys, apps.Keys))
    && (forall n | n in apps :: applicationOk(Resolved(apps[n], cores)))
  }

  /** The configurations that pass. */
  ghost predicate Passes(c: Config, settingsOk: bool, applicationOk: Application -> bool, cores: nat) {
    && settingsOk && !RoutesCollide(c.routes, c.applications)
    && ChecksPass(c, LiftedRoutes(c.routes), LiftedApps(c.routes, c.applications), applicationOk, cores)
  }

  lemma {:induction false} OutcomeApps(named: Applications, apps: Applications, cores: nat)
    requires Extends(named, apps)
    ensures var all := ResolveAll(apps, cores);
      && all.Keys == apps.Keys && (forall n | n in named :: n in all && SameButAuto(named[n], all[n], cores))
      && forall n | n in all :: !all[n].processes.Auto?
  {
  }

  lemma {:induction false} OutcomeRoutes(c: Config, cores: nat)
    requires var routes, apps := LiftedRoutes(c.routes), LiftedApps(c.routes, c.applications);
      forall r | r in routes :: RouteOk(routes[r], routes.Keys, apps.Keys)
    ensures Outcome(c, cores).config.routes.Keys == c.routes.Keys
    ensures var v := Outcome(c, cores);
      forall r | r in c.routes ::
        SameSteps(c, v, r) && RouteOk(v.config.routes[r], v.config.routes.Keys, v.applications.Keys)
  {
    var routes, apps := LiftedRoutes(c.routes), LiftedApps(c.routes, c.applications);
    var v := Outcome(c, cores);
    assert v.applications.Keys == apps.Keys;
    forall r | r in c.routes
      ensures SameSteps(c, v, r) && RouteOk(v.config.routes[r], v.config.routes.Keys, v.applications.Keys)
    {
      assert RouteOk(routes[r], routes.Keys, apps.Keys);
    }
  }

  lemma {:induction false} OutcomeReferences(c: Config, cores: nat)
    requires var routes, apps := LiftedRoutes(c.routes), LiftedApps(c.routes, c.applications);
      forall r | r in routes :: RouteOk(routes[r], routes.Keys, apps.Keys)
    ensures forall r: string, i: nat, d: nat | ReferenceAt(c.routes, r, i, d).Some? ::
      ReferenceAt(c.routes, r, i, d).value in c.applications
      || Adopted(c.routes, ReferenceAt(c.routes, r, i, d).value, Outcome(c, cores).applications, cores)
  {
    forall r: string, i: nat, d: nat | ReferenceAt(c.routes, r, i, d).Some?
      ensures ReferenceAt(c.routes, r, i, d).value in c.applications
              || Adopted(c.routes, ReferenceAt(c.routes, r, i, d).value, Outcome(c, cores).applications, cores)
    {
      assert LiftedRoutes(c.routes).Keys == c.routes.Keys;
      ReferencesAreKnown(c, cores, r, i, d);
    }
  }

  lemma {:induction false} OutcomeIsValid(c: Config, applicationOk: Application -> bool, cores: nat)
    requires ChecksPass(c, LiftedRoutes(c.routes), LiftedApps(c.routes, c.applications), applicationOk, cores)
    requires Extends(c.applications, LiftedApps(c.routes, c.applications))
    requires RoutesLifted(c.routes, LiftedRoutes(c.routes), c.routes.Keys, LiftedApps(c.routes, c.applications))
    ensures Valid(c, Outcome(c, cores), cores)
  {
    LiftedIsPreserved(c, cores);
    OutcomeApps(c.applications, LiftedApps(c.routes, c.applications), cores);
    OutcomeRoutes(c, cores);
    OutcomeReferences(c, cores);
  }

  /** `validate`. The checks of timeouts, addresses and application fields are the caller's: `settingsOk` and
      `applicationOk`. It succeeds exactly on the configurations that pass; then every defined reference means what it
      meant, at every fallback depth, no named application has been overwritten, and every action is fit to compile. */
  method ValidateConfig(c: Config, settingsOk: bool, applicationOk: Application -> bool, cores: nat)
      returns (r: Result<Validated, ConfigError>)
    ensures r.Ok? <==> Passes(c, settingsOk, applicationOk, cores)
    ensures r.Ok? ==> r.value == Outcome(c, cores) && Valid(c, r.value, cores)
  {
    if !settingsOk {
      return Err(Invalid("settings.http", BadSettings));
    }
    var lifted := ExtractRoutes(c.routes, c.applications);
    if lifted.Err? {
      return Err(lifted.error);
    }
    var (routes, apps) := lifted.value;
    r := CheckAll(c, routes, apps, applicationOk, cores);
    if r.Ok? {
      OutcomeIsValid(c, applicationOk, cores);
    }
  }

  /** The rest of `validate`, on what the lifting gave. */
  method CheckAll(c: Config, routes: Routes, apps: Applications, applicationOk: Application -> bool, cores: nat)
      returns (r: Result<Validated, ConfigError>)
    ensures r.Ok? <==> ChecksPass(c, routes, apps, applicationOk, cores)
    ensures r.Ok? ==> r.value == Validated(Config(c.listeners, routes, ResolveAll(c.applications, cores)),
                                           ResolveAll(apps, cores))
  {
    if c.listeners.Keys == {} {
      return Err(Invalid("listeners", NoListener));
    }
    var e := CheckListeners(c.listeners, routes);
    if e.None? {
      e := CheckRoutes(routes, apps.Keys);
    }
    if e.None? {
      e := CheckApplications(apps, applicationOk, cores);
    }
    if e.Some? {
      return Err(e.value);
    }
    return Ok(Validated(Config(c.listeners, routes, ResolveAll(c.applications, cores)), ResolveAll(apps, cores)));
  }

  method CheckListeners(listeners: map<string, Listener>, routes: Routes) returns (e: Option<ConfigError>)
    ensures e.None? <==> forall l | l in listeners :: ListenerOk(listeners[l], routes)
  {
    var todo := listeners.Keys;
    while todo != {}
      invariant todo <= listeners.Keys
      invariant forall l | l in listeners && l !in todo :: ListenerOk(listeners[l], routes)
      decreases |todo|
    {
      var l :| l in todo;
      match (listeners[l].route, listeners[l].status) {
        case (Some(route), false) =>
          if route !in routes {
            return Some(Invalid("listeners." + l + ".route", UnknownRoute));
          }
        case (None, true) =>
        case _ => return Some(Invalid("listeners." + l, ListenerTarget));
      }
      todo := todo - {l};
    }
    return None;
  }

  method CheckRoutes(routes: Routes, apps: set<string>) returns (e: Option<ConfigError>)
    ensures e.None? <==> forall r | r in routes :: RouteOk(routes[r], routes.Keys, apps)
  {
    var todo := routes.Keys;
    while todo != {}
      invariant todo <= routes.Keys
      invariant forall n | n in routes && n !in todo :: RouteOk(routes[n], routes.Keys, apps)
      decreases |todo|
    {
      var n :| n in todo;
      e := CheckRoute(n, routes[n], routes.Keys, apps);
      if e.Some? {
        return;
      }
      todo := todo - {n};
    }
    return None;
  }

  method CheckApplications(apps: Applications, applicationOk: Application -> bool, cores: nat)
      returns (e: Option<ConfigError>)
    ensures e.None? <==> forall n | n in apps :: applicationOk(Resolved(apps[n], cores))
  {
    var todo := apps.Keys;
    while todo != {}
      invariant todo <= apps.Keys
      invariant forall n | n in apps && n !in todo :: applicationOk(Resolved(apps[n], cores))
      decreases |todo|
    {
      var n :| n in todo;
      if !applicationOk(Resolved(apps[n], cores)) {
        return Some(Invalid("applications." + n, BadApplication));
      }
      todo := todo - {n};
    }
    return None;
  }

  // --- references without a definition ---

  lemma {:induction false} SourcesSafeLifted(a: Action, name: string)
    ensures SourcesSafe(Lift(a, name)) <==> SourcesSafe(a)
  {
    forall d: nat
      ensures ApplicationAt(Lift(a, name), d) <==> ApplicationAt(a, d)
    {
      LiftAt(a, name, d);
    }
  }

  /** An action passes the checks after its lifting exactly if it would before, its inline names being known. */
  lemma {:induction false} LiftedFits(a: Action, name: string, routes: set<string>, apps: set<string>)
    requires NamesOf(a, name) <= apps
    ensures FitAll(Lift(a, name), routes, apps) <==> FitAll(a, routes, apps)
  {
    forall d: nat | At(a, d).Some?
      ensures At(Lift(a, name), d).Some?
      ensures var b := At(Lift(a, name), d).value;
        (Fit(b, routes, apps) && SourcesSafe(b)) == (Fit(At(a, d).value, routes, apps) && SourcesSafe(At(a, d).value))
    {
      LiftAt(a, name, d);
      SourcesSafeLifted(At(a, d).value, NameAt(name, d));
      if InlineIn(a, d).Some? {
        NameIsOf(a, name, d);
      }
    }
    forall d: nat
      ensures At(Lift(a, name), d).Some? ==> At(a, d).Some?
    {
      LiftAt(a, name, d);
    }
  }

  lemma {:induction false} LiftedRouteOk(routes: Routes, r: string, apps: set<string>)
    requires r in routes && GeneratedNames(routes) <= apps
    ensures RouteOk(LiftedRoutes(routes)[r], routes.Keys, apps) <==> RouteOk(routes[r], routes.Keys, apps)
  {
    forall i: nat | i < |routes[r]|
      ensures LiftedSteps(r, routes[r])[i] == LiftedStep(r, i, routes[r][i])
      ensures FitAll(Lift(routes[r][i].action, StepName(r, i)), routes.Keys, apps)
              <==> FitAll(routes[r][i].action, routes.Keys, apps)
    {
      assert forall n | n in NamesOf(routes[r][i].action, StepName(r, i)) :: n in GeneratedNames(routes);
      LiftedFits(routes[r][i].action, StepName(r, i), routes.Keys, apps);
    }
  }

  /** All but the targets: what the checks ask of a route whatever applications there are. */
  ghost predicate RouteShaped(steps: seq<RouteStep>, routes: set<string>) {
    && |steps| > 0
    && (forall i | 0 <= i < |steps| - 1 :: steps[i].match_.Some?)
    && (forall i: nat, d: nat | i < |steps| && At(steps[i].action, d).Some? ::
          Shaped(At(steps[i].action, d).value, routes) && SourcesSafe(At(steps[i].action, d).value))
  }

  ghost predicate NamesKnown(routes: Routes, r: string, apps: set<string>) {
    forall i: nat, d: nat | ReferenceAt(routes, r, i, d).Some? :: ReferenceAt(routes, r, i, d).value in apps
  }

  lemma {:induction false} RouteOkMeans(routes: Routes, r: string, apps: set<string>)
    requires r in routes
    ensures RouteOk(routes[r], routes.Keys, apps) <==> RouteShaped(routes[r], routes.Keys) && NamesKnown(routes, r, apps)
  {
    var steps := routes[r];
    if RouteShaped(steps, routes.Keys) && NamesKnown(routes, r, apps) {
      forall i: nat, d: nat | i < |steps| && At(steps[i].action, d).Some?
        ensures Fit(At(steps[i].action, d).value, routes.Keys, apps) && SourcesSafe(At(steps[i].action, d).value)
      {
        assert ReferenceAt(routes, r, i, d).Some? ==> ReferenceAt(routes, r, i, d).value in apps;
      }
      assert RouteOk(steps, routes.Keys, apps);
    }
    if RouteOk(steps, routes.Keys, apps) {
      forall i: nat, d: nat | i < |steps| && At(steps[i].action, d).Some?
        ensures Shaped(At(steps[i].action, d).value, routes.Keys) && SourcesSafe(At(steps[i].action, d).value)
        ensures TargetKnown(At(steps[i].action, d).value, apps)
      {
        assert FitAll(steps[i].action, routes.Keys, apps);
      }
    }
  }

  /** Everything the checks ask of the configuration as it is written, except that references have definitions. */
  ghost predicate SoundButForNames(c: Config, settingsOk: bool, applicationOk: Application -> bool, cores: nat) {
    && settingsOk && !RoutesCollide(c.routes, c.applications) && c.listeners.Keys != {}
    && (forall l | l in c.listeners :: ListenerOk(c.listeners[l], c.routes))
    && (forall r | r in c.routes :: RouteShaped(c.routes[r], c.routes.Keys))
    && (forall n | n in c.applications :: applicationOk(Resolved(c.applications[n], cores)))
    && (forall r: string, i: nat, d: nat | InlineAt(c.routes, r, i, d).Some? ::
          applicationOk(Resolved(InlineAt(c.routes, r, i, d).value, cores)))
  }

  ghost predicate HasName(c: Config, n: string) {
    n in c.applications || exists r: string, i: nat, d: nat :: NamedFor(c.routes, n, r, i, d)
  }

  /** The checks of all the routes, and what they ask of the routes as they are written. */
  lemma {:induction false} RoutesPass(c: Config, apps: set<string>)
    requires GeneratedNames(c.routes) <= apps
    ensures (forall r | r in LiftedRoutes(c.routes) :: RouteOk(LiftedRoutes(c.routes)[r], c.routes.Keys, apps)) <==>
      && (forall r | r in c.routes :: RouteShaped(c.routes[r], c.routes.Keys))
      && (forall r | r in c.routes :: NamesKnown(c.routes, r, apps))
  {
    forall r | r in c.routes
      ensures RouteOk(LiftedRoutes(c.routes)[r], c.routes.Keys, apps)
              <==> RouteShaped(c.routes[r], c.routes.Keys) && NamesKnown(c.routes, r, apps)
    {
      LiftedRouteOk(c.routes, r, apps);
      RouteOkMeans(c.routes, r, apps);
    }
  }

  /** The applications after the lifting are the names a reference may have. */
  lemma {:induction false} NamesAfterLifting(c: Config)
    ensures forall n :: n in LiftedApps(c.routes, c.applications) <==> HasName(c, n)
    ensures (forall r | r in c.routes :: NamesKnown(c.routes, r, LiftedApps(c.routes, c.applications).Keys)) <==>
      forall r: string, i: nat, d: nat | ReferenceAt(c.routes, r, i, d).Some? ::
        HasName(c, ReferenceAt(c.routes, r, i, d).value)
  {
    forall n
      ensures n in LiftedApps(c.routes, c.applications) <==> HasName(c, n)
    {
      GeneratedMeans(c.routes, n);
    }
  }

  /** The exact condition: a configuration passes if and only if it is sound as it is written and each reference is to
      a named application or happens to be the name generated for an inline one. */
  lemma {:induction false} PassesExactly(c: Config, settingsOk: bool, applicationOk: Application -> bool, cores: nat)
    ensures Passes(c, settingsOk, applicationOk, cores) <==>
      && SoundButForNames(c, settingsOk, applicationOk, cores)
      && forall r: string, i: nat, d: nat | ReferenceAt(c.routes, r, i, d).Some? ::
           HasName(c, ReferenceAt(c.routes, r, i, d).value)
  {
    var routes, apps := LiftedRoutes(c.routes), LiftedApps(c.routes, c.applications);
    assert routes.Keys == c.routes.Keys;
    NamesAfterLifting(c);
    RoutesPass(c, apps.Keys);
    if !RoutesCollide(c.routes, c.applications) {
      ApplicationsChecked(c, applicationOk, cores);
    }
  }

  lemma {:induction false} CollidesAt(a: Action, name: string, named: Applications, d: nat)
    requires InlineIn(a, d).Some? && NameAt(name, d) in named
    ensures Collides(a, name, named)
    decreases d
  {
    if d > 0 {
      assert At(a, d) == At(a.fallback.value, d - 1);
      CollidesAt(a.fallback.value, FallbackName(name), named, d - 1);
    }
  }

  lemma {:induction false} TakenNameCollides(routes: Routes, named: Applications, r: string, i: nat, d: nat)
    requires InlineAt(routes, r, i, d).Some? && NameAt(StepName(r, i), d) in named
    ensures RoutesCollide(routes, named)
  {
    CollidesAt(routes[r][i].action, StepName(r, i), named, d);
    assert StepsCollide(r, routes[r], named);
  }

  lemma {:induction false} ApplicationsChecked(c: Config, applicationOk: Application -> bool, cores: nat)
    requires !RoutesCollide(c.routes, c.applications)
    ensures var apps := LiftedApps(c.routes, c.applications);
      (forall n | n in apps :: applicationOk(Resolved(apps[n], cores))) <==>
      && (forall n | n in c.applications :: applicationOk(Resolved(c.applications[n], cores)))
      && (forall r: string, i: nat, d: nat | InlineAt(c.routes, r, i, d).Some? ::
            applicationOk(Resolved(InlineAt(c.routes, r, i, d).value, cores)))
  {
    var apps := LiftedApps(c.routes, c.applications);
    forall r: string, i: nat, d: nat | InlineAt(c.routes, r, i, d).Some?
      ensures var n := NameAt(StepName(r, i), d);
        n in apps && n !in c.applications && apps[n] == InlineAt(c.routes, r, i, d).value
    {
      OneDefinitionEach(c.routes, NameAt(StepName(r, i), d), r, i, d);
      if NameAt(StepName(r, i), d) in c.applications {
        TakenNameCollides(c.routes, c.applications, r, i, d);
      }
    }
    forall n | n in apps
      ensures (n in c.applications && apps[n] == c.applications[n] && n !in GeneratedNames(c.routes))
              || exists r: string, i: nat, d: nat :: NamedFor(c.routes, n, r, i, d) && apps[n] == InlineAt(c.routes, r, i, d).value
    {
      GeneratedMeans(c.routes, n);
      if r: string, i: nat, d: nat :| NamedFor(c.routes, n, r, i, d) {
        OneDefinitionEach(c.routes, n, r, i, d);
      }
    }
  }

  /** What a reference denotes once `auto` is resolved. */
  function Meant(r: ApplicationRef, apps: Applications, cores: nat): Option<Application> {
    match Denoted(r, apps) case Some(app) => Some(Resolved(app, cores)) case None => None
  }

  /** In a configuration that passes, a reference keeps its meaning exactly if it had one. */
  lemma {:induction false} MeaningKeptExactly(c: Config, settingsOk: bool, applicationOk: Application -> bool, cores: nat,
                                              r: string, i: nat, d: nat)
    requires Passes(c, settingsOk, applicationOk, cores) && ReferenceAt(c.routes, r, i, d).Some?
    ensures var n := ReferenceAt(c.routes, r, i, d).value;
      Denoted(Name(n), Outcome(c, cores).applications) == Meant(Name(n), c.applications, cores) <==> n in c.applications
  {
    var n := ReferenceAt(c.routes, r, i, d).value;
    PassesExactly(c, settingsOk, applicationOk, cores);
    assert HasName(c, n);
    GeneratedMeans(c.routes, n);
    assert n in LiftedApps(c.routes, c.applications);
    if n in GeneratedNames(c.routes) && n in c.applications {
      var q: string, j: nat, e: nat :| NamedFor(c.routes, n, q, j, e);
      TakenNameCollides(c.routes, c.applications, q, j, e);
    }
  }

  function To(r: ApplicationRef): Action {
    Action(Some(r), None, None, None, None, None, None, None)
  }

  /** A route whose second step names what only the lifting of the first one defines. */
  function Borrowing(app: Application): Config {
    Config(map["*:80" := Listener(Some("m"), false)],
           map["m" := [RouteStep(Some("/a"), To(Inline(app))), RouteStep(None, To(Name("m[0]")))]], map[])
  }

  /** Nothing is called `m[0]`, yet the configuration passes, and the reference has come to denote the inline one. */
  lemma {:induction false} BorrowedNamePasses(app: Application, applicationOk: Application -> bool, cores: nat)
    requires applicationOk(Resolved(app, cores))
    ensures var c := Borrowing(app);
      && Passes(c, true, applicationOk, cores)
      && ReferenceAt(c.routes, "m", 1, 0) == Some("m[0]") && Denoted(Name("m[0]"), c.applications).None?
      && Denoted(Name("m[0]"), Outcome(c, cores).applications) == Some(Resolved(app, cores))
  {
    var c := Borrowing(app);
    BorrowingIsSound(app, applicationOk, cores);
    assert StepName("m", 0) == "m[0]" && NameAt("m[0]", 0) == "m[0]";
    assert NamedFor(c.routes, "m[0]", "m", 0, 0);
    forall r: string, i: nat, d: nat | ReferenceAt(c.routes, r, i, d).Some?
      ensures HasName(c, ReferenceAt(c.routes, r, i, d).value)
    {
      assert r == "m";
      BareAction(c.routes[r][i].action, d);
    }
    PassesExactly(c, true, applicationOk, cores);
    OneDefinitionEach(c.routes, "m[0]", "m", 0, 0);
  }

  lemma {:induction false} BareAction(a: Action, d: nat)
    requires a.fallback.None?
    ensures At(a, d) == if d == 0 then Some(a) else None
  {
  }

  lemma {:induction false} BorrowingIsSound(app: Application, applicationOk: Application -> bool, cores: nat)
    requires applicationOk(Resolved(app, cores))
    ensures SoundButForNames(Borrowing(app), true, applicationOk, cores)
  {
    var c := Borrowing(app);
    assert "*:80" in c.listeners;
    forall r: string, i: nat, d: nat | r in c.routes && i < |c.routes[r]|
      ensures At(c.routes[r][i].action, d) == if d == 0 then Some(c.routes[r][i].action) else None
    {
      BareAction(c.routes[r][i].action, d);
    }
    assert forall r: string, i: nat, d: nat | InlineAt(c.routes, r, i, d).Some? :: InlineAt(c.routes, r, i, d).value == app;
    assert RouteShaped(c.routes["m"], c.routes.Keys);
  }
}
