/**
 App assembly: the builder that turns an ordered list of modules into one app, its
 build-time checks, and the composed lifespan. Routers, handlers and options are
 opaque; a module is what it contributes.
 */
module Assembly {
  import opened Wrappers
  import opened Sequences

  datatype Allowlist = Allowlist(exact: set<string>, prefixes: seq<string>)

  datatype MiddlewareSpec = MiddlewareSpec(cls: string, layer: int, options: nat, requiresState: seq<string>)

  /** `methods` in sorted order; empty for a websocket route. */
  datatype Route = Route(path: Option<string>, methods: seq<string>)
  datatype RouteSpec = RouteSpec(routes: seq<Route>, prefix: string, overrides: seq<string>)

  /** A handler for an exception class; a registrar stands for the registrations it makes. */
  datatype Registration = Registration(exception: string, handler: nat)

  datatype AppModule = AppModule(
    name: string,
    providesState: seq<string>,
    stateEntries: seq<string>,
    routes: seq<RouteSpec>,
    allowlist: Allowlist,
    handlers: seq<Registration>,
    middleware: Allowlist -> seq<MiddlewareSpec>)

  datatype Contributed = Contributed(moduleName: string, spec: RouteSpec)
  datatype OrderedMiddleware =
    OrderedMiddleware(moduleIndex: nat, specIndex: nat, moduleName: string, spec: MiddlewareSpec)
  datatype Requirement = Requirement(key: string, requiredBy: string, providedBy: string)

  datatype AssemblyError =
    | DuplicateModuleName(name: string)
    | DuplicateStateProvider(key: string)
    | MissingStateProvider(key: string)
    | RouteCollision(key: string, winner: nat, loser: nat)

  // ----- names and state keys: one writer across both phases -----

  /** When a key is written: by a build-time state entry, or by the module's lifespan. */
  datatype StatePhase = BuildTime | Startup

  function Keys(m: AppModule, phase: StatePhase): seq<string> {
    if phase == BuildTime then m.stateEntries else m.providesState
  }

  /** Every declaration of a state key with its module: build-time entries, then startup keys. */
  function Declarations(modules: seq<AppModule>): seq<(string, string)> {
    PhaseDeclarations(modules, BuildTime) + PhaseDeclarations(modules, Startup)
  }

  function PhaseDeclarations(modules: seq<AppModule>, phase: StatePhase): seq<(string, string)> {
    if modules == [] then [] else
      var m := modules[|modules| - 1];
      PhaseDeclarations(modules[..|modules| - 1], phase) + Tagged(Keys(m, phase), m.name)
  }

  function Tagged(keys: seq<string>, name: string): (r: seq<(string, string)>)
    ensures |r| == |keys| && forall i | 0 <= i < |r| :: r[i] == (keys[i], name)
  {
    seq(|keys|, i requires 0 <= i < |keys| => (keys[i], name))
  }

  ghost predicate NamesDistinct(modules: seq<AppModule>) {
    forall i, j | 0 <= i < j < |modules| :: modules[i].name != modules[j].name
  }

  /** No key has two writers, in one phase or across the two. */
  ghost predicate SingleWriter(decls: seq<(string, string)>) {
    forall i, j | 0 <= i < j < |decls| :: decls[i].0 != decls[j].0
  }

  /** The providers map of a declaration list with single writers. */
  ghost predicate Provides(providers: map<string, string>, decls: seq<(string, string)>) {
    && (forall d <- decls :: d.0 in providers && providers[d.0] == d.1)
    && (forall key <- providers :: (key, providers[key]) in decls)
  }

  /** One more declaration: a second writer of its key, or the key's writer from now on. */
  lemma DeclareOne(providers: map<string, string>, decls: seq<(string, string)>, d: (string, string))
    requires SingleWriter(decls) && Provides(providers, decls)
    ensures SingleWriter(decls + [d]) <==> d.0 !in providers
    ensures d.0 !in providers ==> Provides(providers[d.0 := d.1], decls + [d])
  {
    var all := decls + [d];
    if d.0 in providers {
      var k :| 0 <= k < |decls| && decls[k] == (d.0, providers[d.0]);
      assert all[k].0 == all[|decls|].0;
    }
  }

  /** One module's keys, added to what is provided already. */
  method Declare(keys: seq<string>, name: string, before: map<string, string>, ghost decls: seq<(string, string)>)
    returns (r: Result<map<string, string>, AssemblyError>)
    requires SingleWriter(decls) && Provides(before, decls)
    ensures r.Ok? <==> SingleWriter(decls + Tagged(keys, name))
    ensures r.Ok? ==> Provides(r.value, decls + Tagged(keys, name))
    ensures r.Err? ==> r.error.DuplicateStateProvider?
  {
    var providers := before;
    ghost var soFar := decls;
    for i := 0 to |keys|
      invariant soFar == decls + Tagged(keys[..i], name)
      invariant SingleWriter(soFar) && Provides(providers, soFar)
    {
      DeclareOne(providers, soFar, (keys[i], name));
      TaggedStep(keys, name, i, decls);
      soFar := soFar + [(keys[i], name)];
      if keys[i] in providers {
        NotSingleWriter(soFar, decls + Tagged(keys, name));
        return Err(DuplicateStateProvider(keys[i]));
      }
      providers := providers[keys[i] := name];
    }
    assert keys[..|keys|] == keys;
    r := Ok(providers);
  }

  lemma TaggedStep(keys: seq<string>, name: string, i: nat, decls: seq<(string, string)>)
    requires i < |keys|
    ensures decls + Tagged(keys[..i + 1], name) == (decls + Tagged(keys[..i], name)) + [(keys[i], name)]
    ensures decls + Tagged(keys[..i + 1], name) <= decls + Tagged(keys, name)
  {
    assert Tagged(keys, name)[..i + 1] == Tagged(keys[..i + 1], name);
    assert decls + Tagged(keys, name) == (decls + Tagged(keys[..i + 1], name)) + Tagged(keys, name)[i + 1..];
  }

  lemma NotSingleWriter(decls: seq<(string, string)>, all: seq<(string, string)>)
    requires !SingleWriter(decls) && decls <= all
    ensures !SingleWriter(all)
  {
    var i, j :| 0 <= i < j < |decls| && decls[i].0 == decls[j].0;
    assert all[i].0 == all[j].0;
  }

  lemma {:induction false} PhasePrefix(modules: seq<AppModule>, phase: StatePhase, n: nat)
    requires n <= |modules|
    ensures PhaseDeclarations(modules[..n], phase) <= PhaseDeclarations(modules, phase)
    decreases |modules|
  {
    if n == |modules| {
      assert modules[..n] == modules;
    } else {
      var init := modules[..|modules| - 1];
      PhasePrefix(init, phase, n);
      assert init[..n] == modules[..n];
    }
  }

  /** A key with two writers among the first modules has two writers among them all. */
  lemma PhaseFails(modules: seq<AppModule>, phase: StatePhase, n: nat, decls: seq<(string, string)>,
          soFar: seq<(string, string)>)
    requires n <= |modules| && soFar == decls + PhaseDeclarations(modules[..n], phase) && !SingleWriter(soFar)
    ensures !SingleWriter(decls + PhaseDeclarations(modules, phase))
  {
    var some, more := PhaseDeclarations(modules[..n], phase), PhaseDeclarations(modules, phase);
    PhasePrefix(modules, phase, n);
    assert decls + more == soFar + more[|some|..];
    NotSingleWriter(soFar, soFar + more[|some|..]);
  }

  lemma PhaseStep(modules: seq<AppModule>, phase: StatePhase, i: nat, decls: seq<(string, string)>)
    requires i < |modules|
    ensures decls + PhaseDeclarations(modules[..i + 1], phase)
            == (decls + PhaseDeclarations(modules[..i], phase)) + Tagged(Keys(modules[i], phase), modules[i].name)
  {
    assert modules[..i + 1][..i] == modules[..i];
  }

  method CheckNames(modules: seq<AppModule>) returns (r: Result<(), AssemblyError>)
    ensures r.Ok? <==> NamesDistinct(modules)
    ensures r.Err? ==> r.error.DuplicateModuleName?
  {
    var names: set<string> := {};
    for i := 0 to |modules|
      invariant names == set j | 0 <= j < i :: modules[j].name
      invariant NamesDistinct(modules[..i])
    {
      if modules[i].name in names { return Err(DuplicateModuleName(modules[i].name)); }
      names := names + {modules[i].name};
    }
    assert modules[..|modules|] == modules;
    r := Ok(());
  }

  /** All modules' keys of one phase, in module order. */
  method DeclarePhase(modules: seq<AppModule>, phase: StatePhase, before: map<string, string>,
          ghost decls: seq<(string, string)>)
    returns (r: Result<map<string, string>, AssemblyError>)
    requires SingleWriter(decls) && Provides(before, decls)
    ensures r.Ok? <==> SingleWriter(decls + PhaseDeclarations(modules, phase))
    ensures r.Ok? ==> Provides(r.value, decls + PhaseDeclarations(modules, phase))
    ensures r.Err? ==> r.error.DuplicateStateProvider?
  {
    var providers := before;
    ghost var soFar := decls;
    for i := 0 to |modules|
      invariant soFar == decls + PhaseDeclarations(modules[..i], phase)
      invariant SingleWriter(soFar) && Provides(providers, soFar)
    {
      var d := Declare(Keys(modules[i], phase), modules[i].name, providers, soFar);
      PhaseStep(modules, phase, i, decls);
      soFar := soFar + Tagged(Keys(modules[i], phase), modules[i].name);
      if d.Err? {
        PhaseFails(modules, phase, i + 1, decls, soFar);
        return d;
      }
      providers := d.value;
    }
    assert modules[..|modules|] == modules;
    r := Ok(providers);
  }

  /** Accepts exactly the compositions with distinct names and one writer per key; names are
      checked first. */
  method ValidateComposition(modules: seq<AppModule>) returns (r: Result<map<string, string>, AssemblyError>)
    ensures r.Ok? <==> NamesDistinct(modules) && SingleWriter(Declarations(modules))
    ensures r.Ok? ==> Provides(r.value, Declarations(modules))
    ensures r.Err? ==> if NamesDistinct(modules) then r.error.DuplicateStateProvider? else r.error.DuplicateModuleName?
  {
    var named := CheckNames(modules);
    if named.Err? { return Err(named.error); }
    r := DeclarePhase(modules, BuildTime, map[], []);
    assert [] + PhaseDeclarations(modules, BuildTime) == PhaseDeclarations(modules, BuildTime);
    if r.Err? {
      NotSingleWriter(PhaseDeclarations(modules, BuildTime), Declarations(modules));
      return;
    }
    r := DeclarePhase(modules, Startup, r.value, PhaseDeclarations(modules, BuildTime));
  }

  // ----- the merged allowlist -----

  function AllPrefixes(modules: seq<AppModule>): seq<string> {
    if modules == [] then [] else
      AllPrefixes(modules[..|modules| - 1]) + modules[|modules| - 1].allowlist.prefixes
  }

  /** The merged build-time context: the union of the exact paths, and every prefix once, in
      first-seen order. */
  ghost function Context(modules: seq<AppModule>): Allowlist {
    Allowlist(set m <- modules, path <- m.allowlist.exact :: path, Dedup(AllPrefixes(modules)))
  }

  /** `prefixes.extend(p for p in more if p not in prefixes)`, which sees what it has added. */
  method ExtendPrefixes(before: seq<string>, more: seq<string>, ghost seen: seq<string>) returns (prefixes: seq<string>)
    requires before == Dedup(seen)
    ensures prefixes == Dedup(seen + more)
  {
    prefixes := before;
    ghost var soFar := seen;
    for j := 0 to |more|
      invariant soFar == seen + more[..j] && prefixes == Dedup(soFar)
    {
      assert (soFar + [more[j]])[..|soFar|] == soFar;
      if more[j] !in prefixes { prefixes := prefixes + [more[j]]; }
      soFar := soFar + [more[j]];
    }
    assert soFar == seen + more;
  }

  method MergeAllowlists(modules: seq<AppModule>) returns (r: Allowlist)
    ensures r == Context(modules)
  {
    var exact: set<string>, prefixes: seq<string> := {}, [];
    for i := 0 to |modules|
      invariant exact == set m <- modules[..i], path <- m.allowlist.exact :: path
      invariant prefixes == Dedup(AllPrefixes(modules[..i]))
    {
      var spec := modules[i].allowlist;
      assert modules[..i + 1] == modules[..i] + [modules[i]];
      exact := exact + spec.exact;
      prefixes := ExtendPrefixes(prefixes, spec.prefixes, AllPrefixes(modules[..i]));
      assert modules[..i + 1][..i] == modules[..i];
    }
    assert modules[..|modules|] == modules;
    r := Allowlist(exact, prefixes);
  }

  // ----- middleware: one sort, one reverse add -----

  function EntriesOf(modules: seq<AppModule>, context: Allowlist): seq<OrderedMiddleware> {
    if modules == [] then [] else
      var i := |modules| - 1;
      EntriesOf(modules[..i], context) + ModuleEntries(modules[i], i, context)
  }

  function ModuleEntries(m: AppModule, moduleIndex: nat, context: Allowlist): (r: seq<OrderedMiddleware>)
    ensures var specs := m.middleware(context);
      |r| == |specs| && forall k | 0 <= k < |r| :: r[k] == OrderedMiddleware(moduleIndex, k, m.name, specs[k])
  {
    var specs := m.middleware(context);
    seq(|specs|, k requires 0 <= k < |specs| => OrderedMiddleware(moduleIndex, k, m.name, specs[k]))
  }

  /** The sort key `(layer, module index, spec index)`. */
  predicate TripleLeq(a: OrderedMiddleware, b: OrderedMiddleware) {
    || a.spec.layer < b.spec.layer
    || (a.spec.layer == b.spec.layer && PositionLeq(a, b))
  }

  predicate PositionLeq(a: OrderedMiddleware, b: OrderedMiddleware) {
    a.moduleIndex < b.moduleIndex || (a.moduleIndex == b.moduleIndex && a.specIndex <= b.specIndex)
  }

  function CollectMiddleware(modules: seq<AppModule>, context: Allowlist): seq<OrderedMiddleware> {
    SortBy(TripleLeq, EntriesOf(modules, context))
  }

  /** One middleware's required keys, each with its producer, behind those found before. */
  method AddRequirements(e: OrderedMiddleware, providers: map<string, string>, before: seq<Requirement>)
    returns (r: Result<seq<Requirement>, AssemblyError>)
    ensures r.Ok? <==> forall key <- e.spec.requiresState :: key in providers
    ensures r.Ok? ==> forall key <- e.spec.requiresState ::
                        key in providers && Requirement(key, e.moduleName, providers[key]) in r.value
    ensures r.Ok? ==> before <= r.value
    ensures r.Ok? ==> forall req <- r.value :: req in before || RequirementOf(req, e, providers)
    ensures r.Err? ==> r.error.MissingStateProvider? && r.error.key !in providers && r.error.key in e.spec.requiresState
  {
    var requirements := before;
    for j := 0 to |e.spec.requiresState|
      invariant before <= requirements
      invariant forall key <- e.spec.requiresState[..j] ::
                  key in providers && Requirement(key, e.moduleName, providers[key]) in requirements
      invariant forall req <- requirements :: req in before || RequirementOf(req, e, providers)
    {
      var key := e.spec.requiresState[j];
      if key !in providers { return Err(MissingStateProvider(key)); }
      requirements := requirements + [Requirement(key, e.moduleName, providers[key])];
    }
    r := Ok(requirements);
  }

  predicate RequirementOf(req: Requirement, e: OrderedMiddleware, providers: map<string, string>) {
    && req.key in providers && req.providedBy == providers[req.key]
    && e.moduleName == req.requiredBy && req.key in e.spec.requiresState
  }

  /** Every required key has a declared producer, which each requirement names. */
  method ValidateRequiredState(ordered: seq<OrderedMiddleware>, providers: map<string, string>)
    returns (r: Result<seq<Requirement>, AssemblyError>)
    ensures r.Ok? <==> forall e <- ordered, key <- e.spec.requiresState :: key in providers
    ensures r.Ok? ==> forall e <- ordered, key <- e.spec.requiresState ::
                        key in providers && Requirement(key, e.moduleName, providers[key]) in r.value
    ensures r.Ok? ==> forall req <- r.value :: RequirementOk(req, ordered, providers)
    ensures r.Err? ==> r.error.MissingStateProvider? && r.error.key !in providers
                       && exists e <- ordered :: r.error.key in e.spec.requiresState
  {
    var requirements: seq<Requirement> := [];
    for i := 0 to |ordered|
      invariant forall e <- ordered[..i], key <- e.spec.requiresState ::
                  key in providers && Requirement(key, e.moduleName, providers[key]) in requirements
      invariant forall req <- requirements :: RequirementOk(req, ordered, providers)
    {
      var added := AddRequirements(ordered[i], providers, requirements);
      assert ordered[i] in ordered;
      if added.Err? { return added; }
      requirements := added.value;
    }
    r := Ok(requirements);
  }

  ghost predicate RequirementOk(req: Requirement, ordered: seq<OrderedMiddleware>, providers: map<string, string>) {
    exists e <- ordered :: RequirementOf(req, e, providers)
  }

  // ----- routes: no undeclared shadowing -----

  function CollectRoutes(modules: seq<AppModule>): seq<Contributed> {
    if modules == [] then [] else
      ModuleRoutes(modules[0]) + CollectRoutes(modules[1..])
  }

  function ModuleRoutes(m: AppModule): seq<Contributed> {
    Map((spec: RouteSpec) => Contributed(m.name, spec), m.routes)
  }

  /** The `"METHOD /path"` keys a spec mounts, in router order. */
  function RouteKeys(spec: RouteSpec): seq<string> {
    Flatten(Map((route: Route) => KeysOf(route, spec.prefix), spec.routes))
  }

  function KeysOf(route: Route, prefix: string): seq<string> {
    if route.path.None? then []
    else
      var methods := if route.methods == [] then ["WS"] else route.methods;
      Map((method_: string) => method_ + " " + prefix + route.path.value, methods)
  }

  function Mounted(entries: seq<Contributed>): seq<seq<string>> { Map((e: Contributed) => RouteKeys(e.spec), entries) }
  function Overrides(entries: seq<Contributed>): seq<seq<string>> { Map((e: Contributed) => e.spec.overrides, entries) }

  /** Spec `i` is the first to mount the key. */
  ghost predicate Earliest(mounted: seq<seq<string>>, key: string, i: nat) {
    i < |mounted| && key in mounted[i] && forall h | 0 <= h < i :: key !in mounted[h]
  }

  /** If another spec mounts the key too, the first one to do so lists it in its overrides. */
  ghost predicate Declared(mounted: seq<seq<string>>, overrides: seq<seq<string>>, key: string) {
    forall i, j | 0 <= i < j < |mounted| && Earliest(mounted, key, i) && key in mounted[j] ::
      i < |overrides| && key in overrides[i]
  }

  ghost predicate NoUndeclared(mounted: seq<seq<string>>, overrides: seq<seq<string>>) {
    forall key: string :: Declared(mounted, overrides, key)
  }

  ghost predicate WinnersOf(winners: map<string, nat>, mounted: seq<seq<string>>) {
    && (forall key <- winners :: Earliest(mounted, key, winners[key]))
    && (forall i, key | 0 <= i < |mounted| && key in mounted[i] :: key in winners)
  }

  /** One spec's keys, each taken once, against the winners so far. */
  method CheckEntry(mounted: seq<seq<string>>, overrides: seq<seq<string>>, i: nat, before: map<string, nat>)
    returns (r: Result<map<string, nat>, AssemblyError>)
    requires i < |mounted| == |overrides| && WinnersOf(before, mounted[..i])
    ensures r.Ok? ==> WinnersOf(r.value, mounted[..i + 1])
    ensures r.Ok? ==> forall key <- mounted[i] | key in before :: before[key] < i && key in overrides[before[key]]
    ensures r.Err? ==> r.error.RouteCollision? && r.error.loser == i && r.error.winner < i
                       && r.error.key in mounted[i] && Earliest(mounted, r.error.key, r.error.winner)
                       && r.error.key !in overrides[r.error.winner]
  {
    var keys := Dedup(mounted[i]);
    DedupDistinct(mounted[i]);
    var winners := before;
    for k := 0 to |keys|
      invariant forall key :: key in winners <==> key in before || key in keys[..k]
      invariant forall key <- winners :: winners[key] == if key in before then before[key] else i
      invariant forall key <- keys[..k] | key in before :: before[key] < i && key in overrides[before[key]]
    {
      var key := keys[k];
      if key !in winners {
        winners := winners[key := i];
      } else {
        assert key in before;
        EarlierWinner(mounted, i, before, key);
        if key !in overrides[winners[key]] {
          return Err(RouteCollision(key, winners[key], i));
        }
      }
    }
    assert keys[..|keys|] == keys;
    WinnersWith(mounted, i, before, winners);
    r := Ok(winners);
  }

  /** The first of some specs to mount a key is the first of more. */
  lemma EarlierWinner(mounted: seq<seq<string>>, i: nat, winners: map<string, nat>, key: string)
    requires i < |mounted| && WinnersOf(winners, mounted[..i]) && key in winners
    ensures winners[key] < i && Earliest(mounted, key, winners[key]) && Earliest(mounted[..i + 1], key, winners[key])
  {
    assert Earliest(mounted[..i], key, winners[key]);
    var shorter := mounted[..i];
    assert forall h | 0 <= h < i :: mounted[h] == shorter[h];
  }

  /** One more spec wins the keys that none before it mounts. */
  lemma WinnersWith(mounted: seq<seq<string>>, i: nat, before: map<string, nat>, winners: map<string, nat>)
    requires i < |mounted| && WinnersOf(before, mounted[..i])
    requires forall key :: key in winners <==> key in before || key in mounted[i]
    requires forall key <- winners :: winners[key] == if key in before then before[key] else i
    ensures WinnersOf(winners, mounted[..i + 1])
  {
    forall key <- winners ensures Earliest(mounted[..i + 1], key, winners[key]) {
      if key in before { EarlierWinner(mounted, i, before, key); } else { NotMountedBefore(mounted, i, before, key); }
    }
    var shorter, longer := mounted[..i], mounted[..i + 1];
    forall h, key | 0 <= h < |longer| && key in longer[h] ensures key in winners {
      if h < i { assert key in shorter[h]; }
    }
  }

  lemma NotMountedBefore(mounted: seq<seq<string>>, i: nat, before: map<string, nat>, key: string)
    requires i < |mounted| && WinnersOf(before, mounted[..i]) && key !in before && key in mounted[i]
    ensures Earliest(mounted[..i + 1], key, i)
  {
    var shorter, longer := mounted[..i], mounted[..i + 1];
    forall h | 0 <= h < i ensures key !in longer[h] { assert longer[h] == shorter[h]; }
  }

  /** Accepts exactly when every key mounted by two or more specs is listed in the overrides
      of the earliest; an error names the first spec that collides and the spec it loses to. */
  method ValidateRouteCollisions(entries: seq<Contributed>) returns (r: Result<map<string, nat>, AssemblyError>)
    ensures r.Ok? <==> NoUndeclared(Mounted(entries), Overrides(entries))
    ensures r.Err? ==> r.error.RouteCollision? && r.error.winner < r.error.loser < |entries|
                       && Earliest(Mounted(entries), r.error.key, r.error.winner)
                       && r.error.key in RouteKeys(entries[r.error.loser].spec)
                       && r.error.key !in entries[r.error.winner].spec.overrides
                       && NoUndeclared(Mounted(entries)[..r.error.loser], Overrides(entries))
  {
    var mounted, overrides := Mounted(entries), Overrides(entries);
    var winners: map<string, nat> := map[];
    for i := 0 to |entries|
      invariant WinnersOf(winners, mounted[..i]) && NoUndeclared(mounted[..i], overrides)
    {
      var checked := CheckEntry(mounted, overrides, i, winners);
      if checked.Err? {
        assert !Declared(mounted, overrides, checked.error.key);
        return checked;
      }
      NoUndeclaredStep(mounted, overrides, i, winners);
      winners := checked.value;
    }
    assert mounted[..|entries|] == mounted;
    r := Ok(winners);
  }

  lemma NoUndeclaredStep(mounted: seq<seq<string>>, overrides: seq<seq<string>>, i: nat, winners: map<string, nat>)
    requires i < |mounted| == |overrides| && WinnersOf(winners, mounted[..i]) && NoUndeclared(mounted[..i], overrides)
    requires forall key <- mounted[i] | key in winners :: winners[key] < i && key in overrides[winners[key]]
    ensures NoUndeclared(mounted[..i + 1], overrides)
  {
    var longer, shorter := mounted[..i + 1], mounted[..i];
    forall key: string, a, b | 0 <= a < b < |longer| && Earliest(longer, key, a) && key in longer[b]
      ensures key in overrides[a]
    {
      assert shorter[a] == longer[a] && Earliest(shorter, key, a);
      assert Declared(shorter, overrides, key);
      if b == i { assert Earliest(shorter, key, winners[key]); } else { assert key in shorter[b]; }
    }
  }
}
