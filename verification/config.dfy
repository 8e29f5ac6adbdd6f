/** The parts of the configuration that routing rests on. */
module Config {
  import opened Bytes

  datatype Processes = Auto | Fixed(n: nat) | Dynamic(max: nat, spare: nat, idleTimeout: nat)

  /** `settings` stands for all that validation neither changes nor resolves. */
  datatype Application = Application(module_: string, processes: Processes, settings: string)

  /** A reference into the application map, or an anonymous definition on the spot. */
  datatype ApplicationRef = Name(name: string) | Inline(app: Application)

  datatype ServeSources = NoSources | AllSources | OnlySources(exts: seq<string>)

  datatype Share =
    | Path(path: string)
    | Full(paths: seq<string>, index: Option<string>, types: Option<seq<string>>, followSymlinks: Option<bool>,
           serveSources: ServeSources)

  type HeaderOp = (string, Option<string>)

  /** Any terminal may be missing or doubled until validation has looked. */
  datatype Action = Action(application: Option<ApplicationRef>, route: Option<string>, share: Option<Share>,
                           status: Option<nat>, location: Option<string>, rewrite: Option<string>,
                           responseHeaders: Option<seq<HeaderOp>>, fallback: Option<Action>)

  /** `match_` is absent on a step that matches everything. */
  datatype RouteStep = RouteStep(match_: Option<string>, action: Action)

  type Routes = map<string, seq<RouteStep>>
  type Applications = map<string, Application>

  datatype Listener = Listener(route: Option<string>, status: bool)

  datatype Config = Config(listeners: map<string, Listener>, routes: Routes, applications: Applications)

  datatype Validated = Validated(config: Config, applications: Applications)
}
