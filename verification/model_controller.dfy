/** models/model-controller.js: the streaming-capable list, the routing from a model name
    to an adapter module, the module cache, the active model and the streaming flag. */
module ModelController {
  import opened Js
  import opened Text
  import opened Wrappers
  import FirstMatch

  /** The controller's fields: `loadedModels` (module name to default export),
      `activeModel` and `streamingEnabled`. */
  datatype Controller = Controller(loaded: map<string, JVal>, active: Option<string>, streaming: bool)

  /** The state the constructor sets up: nothing loaded, no active model, streaming off, so
      the first `toggleStreaming` turns it on. */
  function Fresh(): (c: Controller)
    ensures c.loaded == map[] && c.active == None
    ensures !IsStreamingEnabled(c) && ToggleStreaming(c).enabled
  {
    Controller(map[], None, false)
  }

  /** `streamingCapableModels`, in declaration order. */
  const StreamingCapable: seq<string> := [
    "gpt-4o", "gpt-4o-mini", "o1-mini", "o3-mini",
    "claude-3-5-sonnet", "claude-3-7-sonnet",
    "gemini-2.0-flash", "gemini-pro", "gemini-pro-1.5",
    "gemini-2.5-pro-exp-03-25:free", "gemini-2.0-flash-thinking-exp:free",
    "meta-llama/llama-4-maverick", "meta-llama/llama-4-scout",
    "mistral-large-latest", "pixtral-large-latest", "codestral-latest",
    "x-ai/grok-3-beta", "grok-beta"
  ]

  /** `supportsStreaming(modelName)`: `Array.prototype.includes` compares whole names. */
  function SupportsStreaming(name: string): (r: bool)
    ensures r <==> exists i :: 0 <= i < |StreamingCapable| && StreamingCapable[i] == name
  {
    name in StreamingCapable
  }

  /** The list is matched by whole name, not by substring: a listed full id streams, its
      short key and a longer name that contains a listed one do not. */
  lemma StreamingByWholeName()
    ensures SupportsStreaming("gemini-2.5-pro-exp-03-25:free")
    ensures !SupportsStreaming("gemini-2.5-pro")
    ensures !SupportsStreaming("gpt-4o-2024-08-06")
  {
    assert StreamingCapable[9] == "gemini-2.5-pro-exp-03-25:free";
  }

  /** One arm of the `if … else if` chain: a name that contains `pattern` goes to `module`. */
  datatype Route = Route(pattern: string, target: string)

  /** The chain of `getModuleNameForModel`, in source order; the first arm tests two
      patterns and is written as two routes. */
  const Routes: seq<Route> := [
    Route("gpt-4o", "openai"), Route("gpt-", "openai"),
    Route("o1-mini", "o1-mini"), Route("o3-mini", "o3-mini"),
    Route("claude-3-5", "claude-3.5"), Route("claude-3-7", "claude-3.7"),
    Route("gemini", "gemini"), Route("llama", "llama"), Route("grok", "grok"),
    Route("mistral-large", "mistral-large"), Route("codestral", "codestral"),
    Route("deepseek", "deepseek")
  ]

  /** The module a name with no matching arm falls back to. */
  const DefaultModule := "openai"

  /** First-match routing over any table: the module of the first route whose pattern the
      name contains, else the default. */
  function RouteFor(routes: seq<Route>, name: string, default: string): (r: string)
    ensures forall i :: 0 <= i < |routes| && Contains(name, routes[i].pattern)
              && (forall j :: 0 <= j < i ==> !Contains(name, routes[j].pattern))
              ==> r == routes[i].target
    ensures (forall i :: 0 <= i < |routes| ==> !Contains(name, routes[i].pattern)) ==> r == default
    ensures r == default || exists i :: 0 <= i < |routes| && r == routes[i].target
  {
    match FirstMatch.IndexOfFirst(routes, (route: Route) => Contains(name, route.pattern))
    case None => default
    case Some(i) => routes[i].target
  }

  /** The base names of the files in the repository's `models/` directory. */
  const RepositoryModules: seq<string> := [
    "openai", "o1-mini", "o3-mini", "claude-3.5", "claude-3.7", "claude-3-sonnet",
    "gemini", "llama", "grok", "mistral-large", "codestral", "deepseek", "model-controller"
  ]

  /** Every module a route names, and the default, has a file in `models/`. */
  lemma RoutesHaveFiles()
    ensures DefaultModule in RepositoryModules
    ensures forall i :: 0 <= i < |Routes| ==> Routes[i].target in RepositoryModules
  {
  }

  /** No repository module name holds a '/'. */
  lemma ModuleNamesPlain()
    ensures forall i :: 0 <= i < |RepositoryModules| ==> '/' !in RepositoryModules[i]
  {
  }

  /** `getModuleNameForModel(modelName)`: always the base name of one of the repository's
      module files. */
  function ModuleFor(name: string): (r: string)
    ensures r in RepositoryModules
    ensures (forall i :: 0 <= i < |Routes| ==> !Contains(name, Routes[i].pattern)) ==> r == DefaultModule
  {
    RoutesHaveFiles();
    RouteFor(Routes, name, DefaultModule)
  }

  /** A name that contains none of the patterns written out matches no route. */
  lemma NoRouteMatches(name: string)
    requires !Contains(name, "gpt-4o") && !Contains(name, "gpt-")
    requires !Contains(name, "o1-mini") && !Contains(name, "o3-mini")
    requires !Contains(name, "claude-3-5") && !Contains(name, "claude-3-7")
    requires !Contains(name, "gemini") && !Contains(name, "llama") && !Contains(name, "grok")
    requires !Contains(name, "mistral-large") && !Contains(name, "codestral") && !Contains(name, "deepseek")
    ensures forall i :: 0 <= i < |Routes| ==> !Contains(name, Routes[i].pattern)
  {
  }

  /** Names that fall through to the default: no arm matches `claude-3-sonnet`, so it is
      served by the OpenAI module although a Claude 3 Sonnet module exists. */
  lemma ClaudeSonnetFallsThrough()
    ensures ModuleFor("claude-3-sonnet") == "openai"
  {
    WithoutGmpr("claude-3-sonnet");
  }

  /** Nor does any arm match `pixtral-large-latest`, which is in the streaming list. */
  lemma PixtralFallsThrough()
    ensures ModuleFor("pixtral-large-latest") == "openai"
  {
    WithoutCdmo("pixtral-large-latest");
  }

  /** A name without 'g', 'm', 'p', 'r', '1', '5' or '7' matches no pattern. */
  lemma WithoutGmpr(name: string)
    requires forall i :: 0 <= i < |name| ==> name[i] !in {'g', 'm', 'p', 'r', '1', '5', '7'}
    ensures ModuleFor(name) == DefaultModule
  {
    MissingChar(name, "gpt-4o", 'g');
    MissingChar(name, "gpt-", 'g');
    MissingChar(name, "o1-mini", '1');
    MissingChar(name, "o3-mini", 'm');
    MissingChar(name, "claude-3-5", '5');
    MissingChar(name, "claude-3-7", '7');
    MissingChar(name, "gemini", 'g');
    MissingChar(name, "llama", 'm');
    MissingChar(name, "grok", 'g');
    MissingChar(name, "mistral-large", 'm');
    MissingChar(name, "codestral", 'r');
    MissingChar(name, "deepseek", 'p');
    NoRouteMatches(name);
  }

  /** A name without 'c', 'd', 'm', 'o' or '4', and with no "gp", matches no pattern. */
  lemma WithoutCdmo(name: string)
    requires forall i :: 0 <= i < |name| ==> name[i] !in {'c', 'd', 'm', 'o', '4'}
    requires forall i :: 0 <= i < |name| - 1 ==> !(name[i] == 'g' && name[i + 1] == 'p')
    ensures ModuleFor(name) == DefaultModule
  {
    MissingChar(name, "gpt-4o", '4');
    MissingPair(name, "gpt-");
    MissingChar(name, "o1-mini", 'o');
    MissingChar(name, "o3-mini", 'o');
    MissingChar(name, "claude-3-5", 'c');
    MissingChar(name, "claude-3-7", 'c');
    MissingChar(name, "gemini", 'm');
    MissingChar(name, "llama", 'm');
    MissingChar(name, "grok", 'o');
    MissingChar(name, "mistral-large", 'm');
    MissingChar(name, "codestral", 'c');
    MissingChar(name, "deepseek", 'd');
    NoRouteMatches(name);
  }

  /** The path of module `module` in directory `dir`: `dir` + `module` + `.js`. */
  function ModuleFile(dir: string, mod: string): (p: string)
    ensures |p| == |dir| + |mod| + 3
    ensures p[..|dir|] == dir
    ensures p[|dir|..|dir| + |mod|] == mod
  {
    dir + mod + ".js"
  }

  /** Two base names share a file path only when they are equal. */
  lemma ModuleFileInjective(dir: string, a: string, b: string)
    requires ModuleFile(dir, a) == ModuleFile(dir, b)
    ensures a == b
  {
    assert |a| == |b|;
    assert a == ModuleFile(dir, a)[|dir|..|dir| + |a|];
  }

  /** The repository's module files, as paths from the repository root. */
  predicate RepositoryFile(path: string) {
    exists i :: 0 <= i < |RepositoryModules| && path == ModuleFile("models/", RepositoryModules[i])
  }

  /** The file a module name is imported from, resolved against the directory of the
      controller itself, `models/`. */
  function ImportTarget(mod: string): (p: string)
    ensures mod in RepositoryModules ==> RepositoryFile(p)
  {
    ModuleFile("models/", mod)
  }

  /** An importer finds nothing but repository files. */
  ghost predicate FindsOnlyFiles(importer: string -> Option<JVal>) {
    forall p :: importer(p).Some? ==> RepositoryFile(p)
  }

  /** What `loadModelModule` leaves: the controller, the value it resolves to, and whether
      it called `import()`. */
  datatype Loaded = Loaded(state: Controller, value: JVal, imported: bool)

  /** `this.loadedModels[moduleName]` is set and truthy. */
  predicate Cached(c: Controller, mod: string) {
    mod in c.loaded && Truthy(c.loaded[mod])
  }

  /** `loadModelModule(modelName)` with the module loader `importer` (a path to the module's
      default export, `None` where `import()` rejects): a cached truthy export is returned
      without importing; otherwise a successful import is cached, even a falsy one, and a
      failed one resolves to `null` and leaves the cache as it was. */
  function LoadModelModule(c: Controller, name: string, importer: string -> Option<JVal>): (r: Loaded)
    ensures r.state.active == c.active && r.state.streaming == c.streaming
    ensures Cached(c, ModuleFor(name)) <==> !r.imported
    ensures Cached(c, ModuleFor(name)) ==> r.state == c && r.value == c.loaded[ModuleFor(name)]
    ensures forall k :: k in c.loaded ==> k in r.state.loaded
    ensures forall k :: k in r.state.loaded && k != ModuleFor(name) ==> k in c.loaded && r.state.loaded[k] == c.loaded[k]
    ensures r.imported && importer(ImportTarget(ModuleFor(name))).Some? ==>
              ModuleFor(name) in r.state.loaded && r.state.loaded[ModuleFor(name)] == r.value
              && r.value == importer(ImportTarget(ModuleFor(name))).value
    ensures r.imported && importer(ImportTarget(ModuleFor(name))).None? ==> r.state == c && r.value == Null
  {
    var mod := ModuleFor(name);
    if Cached(c, mod) then Loaded(c, c.loaded[mod], false)
    else
      match importer(ImportTarget(mod))
      case Some(v) => Loaded(c.(loaded := c.loaded[mod := v]), v, true)
      case None => Loaded(c, Null, true)
  }

  /** Loading again after a load that produced a truthy export imports nothing and changes
      nothing: the second call returns the cached export. */
  lemma LoadTwice(c: Controller, name: string, importer: string -> Option<JVal>)
    requires Truthy(LoadModelModule(c, name, importer).value)
    ensures var first := LoadModelModule(c, name, importer);
            LoadModelModule(first.state, name, importer) == Loaded(first.state, first.value, false)
  {
  }

  /** With a loader that finds every repository file, any model name loads: its module is
      imported and cached, or was cached already. */
  lemma EveryNameLoads(c: Controller, name: string, importer: string -> Option<JVal>)
    requires forall i :: 0 <= i < |RepositoryModules| ==> importer(ImportTarget(RepositoryModules[i])).Some?
    ensures var r := LoadModelModule(c, name, importer);
            ModuleFor(name) in r.state.loaded && r.value == r.state.loaded[ModuleFor(name)]
  {
    var mod := ModuleFor(name);
    var i :| 0 <= i < |RepositoryModules| && RepositoryModules[i] == mod;
    assert importer(ImportTarget(RepositoryModules[i])).Some?;
  }

  /** The path the source passes to `import()`, `./models/${moduleName}.js`, resolved
      against the controller's own directory `models/`: it names `models/models/…`. */
  function NestedTarget(mod: string): (p: string)
    ensures p == ModuleFile("models/", "models/" + mod)
  {
    assert "models/" + ("models/" + mod) + ".js" == "models/" + "models/" + mod + ".js";
    "models/" + "models/" + mod + ".js"
  }

  /** The nested path is never a repository file. */
  lemma NestedTargetMissing(mod: string)
    ensures !RepositoryFile(NestedTarget(mod))
  {
    ModuleNamesPlain();
  }

  /** `loadModelModule` as written, importing from the nested path. */
  function LoadAsWritten(c: Controller, name: string, importer: string -> Option<JVal>): (r: Loaded)
    ensures Cached(c, ModuleFor(name)) ==> r == Loaded(c, c.loaded[ModuleFor(name)], false)
    ensures !Cached(c, ModuleFor(name)) && importer(NestedTarget(ModuleFor(name))).None? ==> r == Loaded(c, Null, true)
  {
    var mod := ModuleFor(name);
    if Cached(c, mod) then Loaded(c, c.loaded[mod], false)
    else
      match importer(NestedTarget(mod))
      case Some(v) => Loaded(c.(loaded := c.loaded[mod := v]), v, true)
      case None => Loaded(c, Null, true)
  }

  /** As written, a loader that finds only the repository's files never loads a module:
      every load that misses the cache resolves to `null` and caches nothing. */
  lemma AsWrittenNeverLoads(c: Controller, name: string, importer: string -> Option<JVal>)
    requires FindsOnlyFiles(importer)
    ensures LoadAsWritten(c, name, importer).state == c
    ensures !Cached(c, ModuleFor(name)) ==> LoadAsWritten(c, name, importer).value == Null
  {
    NestedTargetMissing(ModuleFor(name));
  }

  /** What `setActiveModel` leaves: the controller and the boolean it resolves to. */
  datatype Activated = Activated(state: Controller, ok: bool)

  /** `setActiveModel(modelName)`: the name becomes active before the module is loaded, and
      since `loadModelModule` catches every failure the call always resolves to `true`. */
  function SetActiveModel(c: Controller, name: string, importer: string -> Option<JVal>): (r: Activated)
    ensures r.ok
    ensures r.state.active == Some(name)
    ensures r.state.streaming == c.streaming
    ensures r.state.loaded == LoadModelModule(c, name, importer).state.loaded
  {
    LoadIgnoresActive(c, Some(name), name, importer);
    var load := LoadModelModule(c.(active := Some(name)), name, importer);
    Activated(load.state, true)
  }

  /** The active model plays no part in loading. */
  lemma LoadIgnoresActive(c: Controller, active: Option<string>, name: string, importer: string -> Option<JVal>)
    ensures LoadModelModule(c.(active := active), name, importer).state.loaded
            == LoadModelModule(c, name, importer).state.loaded
    ensures LoadModelModule(c.(active := active), name, importer).value
            == LoadModelModule(c, name, importer).value
  {
    assert c.(active := active).loaded == c.loaded;
  }

  /** Activating the same model twice, when the first load produced a truthy export, is
      the same as activating it once. */
  lemma SetActiveTwice(c: Controller, name: string, importer: string -> Option<JVal>)
    requires Truthy(LoadModelModule(c, name, importer).value)
    ensures SetActiveModel(SetActiveModel(c, name, importer).state, name, importer)
            == SetActiveModel(c, name, importer)
  {
    LoadIgnoresActive(c, Some(name), name, importer);
    LoadTwice(c.(active := Some(name)), name, importer);
  }

  /** What `toggleStreaming` leaves: the controller and the new flag it returns. */
  datatype Toggled = Toggled(state: Controller, enabled: bool)

  /** `toggleStreaming()` */
  function ToggleStreaming(c: Controller): (r: Toggled)
    ensures r.enabled != c.streaming
    ensures r.state.loaded == c.loaded && r.state.active == c.active
    ensures IsStreamingEnabled(r.state) == r.enabled
  {
    var flag := !c.streaming;
    Toggled(c.(streaming := flag), flag)
  }

  /** `isStreamingEnabled()` */
  function IsStreamingEnabled(c: Controller): bool {
    c.streaming
  }

  /** Toggling twice restores the controller. */
  lemma ToggleTwice(c: Controller)
    ensures ToggleStreaming(ToggleStreaming(c).state).state == c
  {
  }
}
