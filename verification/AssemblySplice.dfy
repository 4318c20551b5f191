/**
 What a client may rely on when it splices its own modules into a tier's list. It cannot
 restack the tier's middleware. It cannot mount a tier's own route key in front of the tier
 without declaring so; keys are path templates compared as text, so it may still take requests
 through a template of its own that matches them too, and exactly when it does is stated.
 */
module AssemblySplice {
  import opened Wrappers
  import opened Sequences
  import opened Assembly
  import opened AppBuilder

  // ----- the sort triple is a stable sort by layer alone -----

  /** A middleware: class name, layer, and its options as far as they are looked at. */
  type Shape = (string, int, nat)

  /** What is looked at of the options; all of them, if it is the identity. */
  type View = nat -> nat

  function ShapeIn(view: View, spec: MiddlewareSpec): Shape { (spec.cls, spec.layer, view(spec.options)) }
  function ShapeOf(view: View): MiddlewareSpec -> Shape { (spec: MiddlewareSpec) => ShapeIn(view, spec) }
  function Shapes(view: View, specs: seq<MiddlewareSpec>): seq<Shape> { Map(ShapeOf(view), specs) }
  predicate LayerLeq(a: Shape, b: Shape) { a.1 <= b.1 }
  predicate EntryLayerLeq(a: OrderedMiddleware, b: OrderedMiddleware) { a.spec.layer <= b.spec.layer }

  /** Every module's shapes, in module order. */
  function Contributions(view: View, modules: seq<AppModule>, context: Allowlist): seq<Shape> {
    if modules == [] then []
    else Shapes(view, modules[0].middleware(context)) + Contributions(view, modules[1..], context)
  }

  lemma {:induction false} ContributionsAppend(view: View, modules: seq<AppModule>, m: AppModule, context: Allowlist)
    ensures Contributions(view, modules + [m], context)
            == Contributions(view, modules, context) + Shapes(view, m.middleware(context))
  {
    if modules == [] {
      assert (modules + [m])[1..] == [];
    } else {
      ContributionsAppend(view, modules[1..], m, context);
      assert (modules + [m])[1..] == modules[1..] + [m];
    }
  }

  function EntryShape(view: View): OrderedMiddleware -> Shape { (e: OrderedMiddleware) => ShapeIn(view, e.spec) }

  /** The collected entries stand in module order, then spec order, and carry the contributions. */
  lemma {:induction false} EntriesInOrder(view: View, modules: seq<AppModule>, context: Allowlist)
    ensures var es := EntriesOf(modules, context);
      && (forall e <- es :: e.moduleIndex < |modules|)
      && (forall i, j | 0 <= i < j < |es| :: PositionLeq(es[i], es[j]) && !PositionLeq(es[j], es[i]))
      && Map(EntryShape(view), es) == Contributions(view, modules, context)
  {
    if modules == [] {
    } else {
      var n := |modules| - 1;
      EntriesInOrder(view, modules[..n], context);
      ContributionsAppend(view, modules[..n], modules[n], context);
      assert modules == modules[..n] + [modules[n]];
      var init, last := EntriesOf(modules[..n], context), ModuleEntries(modules[n], n, context);
      MapAppend(EntryShape(view), init, last);
      assert Map(EntryShape(view), last) == Shapes(view, modules[n].middleware(context));
      assert forall e <- last :: e.moduleIndex == n;
    }
  }

  /** The composed stack, by class and layer, is the contributions sorted stably by layer. */
  lemma StackIsLayerSort(view: View, modules: seq<AppModule>, context: Allowlist)
    ensures Shapes(view, Specs(CollectMiddleware(modules, context)))
            == SortBy(LayerLeq, Contributions(view, modules, context))
  {
    var es := EntriesOf(modules, context);
    EntriesInOrder(view, modules, context);
    assert TotalPreorder(TripleLeq);
    SortAgrees(TripleLeq, EntryLayerLeq, es);
    MapSort(EntryShape(view), EntryLayerLeq, LayerLeq, es);
    var sorted := SortBy(TripleLeq, es);
    assert Shapes(view, Specs(sorted)) == Map(EntryShape(view), sorted);
  }

  // ----- middleware -----

  /** The classes and layers a tier's modules contribute do not depend on the merged context;
      their options may. */
  ghost predicate ContextFree(view: View, modules: seq<AppModule>) {
    forall m <- modules, a, b :: Shapes(view, m.middleware(a)) == Shapes(view, m.middleware(b))
  }

  lemma {:induction false} ContextFreeContributions(view: View, modules: seq<AppModule>, a: Allowlist, b: Allowlist)
    requires ContextFree(view, modules)
    ensures Contributions(view, modules, a) == Contributions(view, modules, b)
  {
    if modules == [] {
    } else {
      ContextFreeContributions(view, modules[1..], a, b);
    }
  }

  ghost function ClassNames(shapes: seq<Shape>): set<string> { set s <- shapes :: s.0 }

  ghost function Named(names: set<string>): Shape -> bool { (s: Shape) => s.0 in names }

  lemma {:induction false} SpliceContributions(view: View, stock: seq<AppModule>, client: seq<AppModule>,
          composed: seq<AppModule>, context: Allowlist, names: set<string>)
    requires Splice(stock, client, composed)
    requires ClassNames(Contributions(view, stock, context)) <= names
    requires ClassNames(Contributions(view, client, context)) !! names
    ensures Filter(Named(names), Contributions(view, composed, context)) == Contributions(view, stock, context)
    decreases |composed|
  {
    if composed == [] {
    } else if stock != [] && composed[0] == stock[0] && Splice(stock[1..], client, composed[1..]) {
      HeadNames(view, stock, context);
      SpliceContributions(view, stock[1..], client, composed[1..], context, names);
      var head := Shapes(view, stock[0].middleware(context));
      FilterAppend(Named(names), head, Contributions(view, composed[1..], context));
      FilterAll(Named(names), head);
    } else {
      HeadNames(view, client, context);
      SpliceContributions(view, stock, client[1..], composed[1..], context, names);
      var head := Shapes(view, client[0].middleware(context));
      FilterAppend(Named(names), head, Contributions(view, composed[1..], context));
      FilterNone(Named(names), head);
    }
  }

  /** The first module's classes, and those of the rest, are among the list's. */
  lemma HeadNames(view: View, modules: seq<AppModule>, context: Allowlist)
    requires modules != []
    ensures forall s <- Shapes(view, modules[0].middleware(context)) ::
              s.0 in ClassNames(Contributions(view, modules, context))
    ensures ClassNames(Contributions(view, modules[1..], context)) <= ClassNames(Contributions(view, modules, context))
  {
    var head, rest := Shapes(view, modules[0].middleware(context)), Contributions(view, modules[1..], context);
    assert Contributions(view, modules, context) == head + rest;
    assert forall s <- head :: s in head + rest;
    assert forall s <- rest :: s in head + rest;
  }

  ghost function Stack(view: View, modules: seq<AppModule>): seq<Shape> {
    Shapes(view, Specs(CollectMiddleware(modules, Context(modules))))
  }

  /** Splicing never restacks: wherever client modules go, and whatever layers they choose, the
      composed stack restricted to the tier's own classes is the tier's stack. */
  lemma SpliceKeepsStack(view: View, stock: seq<AppModule>, client: seq<AppModule>, composed: seq<AppModule>)
    requires Splice(stock, client, composed) && ContextFree(view, stock)
    requires ClassNames(Contributions(view, client, Context(composed))) !! ClassNames(Stack(view, stock))
    ensures Filter(Named(ClassNames(Stack(view, stock))), Stack(view, composed)) == Stack(view, stock)
  {
    var names, context := ClassNames(Stack(view, stock)), Context(composed);
    StackIsLayerSort(view, stock, Context(stock));
    StackIsLayerSort(view, composed, context);
    ContextFreeContributions(view, stock, Context(stock), context);
    var own := Contributions(view, stock, context);
    SortSorts(LayerLeq, own);
    assert forall s <- own :: s in multiset(SortBy(LayerLeq, own));
    assert ClassNames(own) <= names;
    SpliceContributions(view, stock, client, composed, context, names);
    FilterSort(LayerLeq, Named(names), Contributions(view, composed, context));
  }

  // ----- the manifest and its delta -----

  /** `routes` by membership only, which is all the delta looks at. */
  datatype AppManifest = AppManifest(routes: set<string>, middleware: seq<string>)

  datatype ManifestDelta = ManifestDelta(
    routesAdded: set<string>,
    routesRemoved: set<string>,
    middlewareAdded: seq<string>,
    middlewareRemoved: seq<string>,
    stockReordered: bool)

  function Delta(stock: AppManifest, composed: AppManifest): ManifestDelta {
    var sharedInComposed := Filter((name: string) => name in stock.middleware, composed.middleware);
    var sharedInStock := Filter((name: string) => name in composed.middleware, stock.middleware);
    ManifestDelta(
      composed.routes - stock.routes,
      stock.routes - composed.routes,
      Filter((name: string) => name !in stock.middleware, composed.middleware),
      Filter((name: string) => name !in composed.middleware, stock.middleware),
      sharedInComposed != sharedInStock)
  }

  /** Of any two manifests, the delta lists exactly what one has and the other has not. */
  lemma DeltaExact(stock: AppManifest, composed: AppManifest)
    ensures var d := Delta(stock, composed);
      && (forall line :: line in d.routesAdded <==> line in composed.routes && line !in stock.routes)
      && (forall line :: line in d.routesRemoved <==> line in stock.routes && line !in composed.routes)
      && (forall name :: name in d.middlewareAdded <==> name in composed.middleware && name !in stock.middleware)
      && (forall name :: name in d.middlewareRemoved <==> name in stock.middleware && name !in composed.middleware)
  {
  }

  /** It lists middleware added in composed order and middleware removed in stock order, each as often
      as it stands there. */
  lemma DeltaInOrder(stock: AppManifest, composed: AppManifest) returns (added: seq<nat>, removed: seq<nat>)
    ensures Selects(composed.middleware, added, Delta(stock, composed).middlewareAdded)
    ensures forall i: nat | i < |composed.middleware| :: i in added <==> composed.middleware[i] !in stock.middleware
    ensures Selects(stock.middleware, removed, Delta(stock, composed).middlewareRemoved)
    ensures forall i: nat | i < |stock.middleware| :: i in removed <==> stock.middleware[i] !in composed.middleware
  {
    added := FilterSelects((name: string) => name !in stock.middleware, composed.middleware);
    removed := FilterSelects((name: string) => name !in composed.middleware, stock.middleware);
  }

  /** It reports no reorder exactly when one list is what both stacks hold of the names they share. */
  lemma DeltaReorderExact(stock: AppManifest, composed: AppManifest)
    ensures !Delta(stock, composed).stockReordered <==>
              exists shared :: && IsShared(stock.middleware, composed.middleware, shared)
                               && IsShared(composed.middleware, stock.middleware, shared)
  {
    var theirs := Filter((name: string) => name in composed.middleware, stock.middleware);
    SharedIsFilter(stock.middleware, composed.middleware, theirs);
    SharedIsFilter(composed.middleware, stock.middleware, theirs);
    forall shared | && IsShared(stock.middleware, composed.middleware, shared)
                    && IsShared(composed.middleware, stock.middleware, shared)
      ensures !Delta(stock, composed).stockReordered
    {
      SharedIsFilter(stock.middleware, composed.middleware, shared);
      SharedIsFilter(composed.middleware, stock.middleware, shared);
    }
  }

  /** Of stacks without duplicates it reports a reorder exactly when two names that both manifests have
      stand one way in the one and the other way in the other. */
  lemma DeltaReorderIff(stock: AppManifest, composed: AppManifest)
    requires NoDuplicates(stock.middleware) && NoDuplicates(composed.middleware)
    ensures Delta(stock, composed).stockReordered <==>
              exists a, b :: Before(stock.middleware, a, b) && Before(composed.middleware, b, a)
  {
    var inStock := (name: string) => name in stock.middleware;
    var inComposed := (name: string) => name in composed.middleware;
    var ours, theirs := Filter(inStock, composed.middleware), Filter(inComposed, stock.middleware);
    FilterDistinct(inStock, composed.middleware);
    FilterDistinct(inComposed, stock.middleware);
    if a, b :| Before(stock.middleware, a, b) && Before(composed.middleware, b, a) {
      FilterBefore(inStock, composed.middleware, b, a);
      FilterBefore(inComposed, stock.middleware, a, b);
      NeverBothWays(ours, b, a);
    }
    if forall a, b :: Before(stock.middleware, a, b) ==> !Before(composed.middleware, b, a) {
      forall a, b | Before(theirs, a, b) ensures !Before(ours, b, a) {
        FilterBefore(inComposed, stock.middleware, a, b);
        FilterBefore(inStock, composed.middleware, b, a);
      }
      SameOrder(theirs, ours);
    }
  }

  function NamesOf(shapes: seq<Shape>): seq<string> { Map((s: Shape) => s.0, shapes) }

  function Joined(methods: seq<string>): string {
    if methods == [] then "" else if |methods| == 1 then methods[0] else methods[0] + "," + Joined(methods[1..])
  }

  /** A mounted route's own line of the manifest, with all its methods. */
  function ListedRoute(route: Route, prefix: string): seq<string> {
    if route.path.None? then []
    else [Joined(if route.methods == [] then ["WS"] else route.methods) + " " + prefix + route.path.value]
  }

  function ListedSpec(spec: RouteSpec): seq<string> {
    Flatten(Map((route: Route) => ListedRoute(route, spec.prefix), spec.routes))
  }

  ghost function ListedRoutes(modules: seq<AppModule>): set<string> {
    set e <- CollectRoutes(modules), line <- ListedSpec(e.spec) :: line
  }

  /** The manifest of a built app; `builtIn` are the routes the framework adds to every app. */
  ghost function Manifest(view: View, modules: seq<AppModule>, builtIn: set<string>): AppManifest {
    AppManifest(ListedRoutes(modules) + builtIn, NamesOf(Stack(view, modules)))
  }

  lemma {:induction false} FilterNames(names: set<string>, shapes: seq<Shape>)
    ensures Filter((name: string) => name in names, NamesOf(shapes)) == NamesOf(Filter(Named(names), shapes))
  {
    if shapes == [] {
    } else {
      FilterNames(names, shapes[1..]);
      assert NamesOf(shapes)[1..] == NamesOf(shapes[1..]);
    }
  }

  lemma {:induction false} FilterSame<T>(p: T -> bool, q: T -> bool, s: seq<T>)
    requires forall x <- s :: p(x) == q(x)
    ensures Filter(p, s) == Filter(q, s)
  {
    if s != [] { FilterSame(p, q, s[1..]); }
  }

  lemma MiddlewareNames(view: View, stock: seq<AppModule>)
    ensures forall name :: name in NamesOf(Stack(view, stock)) <==> name in ClassNames(Stack(view, stock))
  {
    var shapes := Stack(view, stock);
    forall s <- shapes ensures s.0 in NamesOf(shapes) {
      var i :| 0 <= i < |shapes| && shapes[i] == s;
      assert NamesOf(shapes)[i] == s.0;
    }
  }

  /** Once the stock names kept their order inside the composed list, the delta is clean. */
  lemma CleanDelta(stock: AppManifest, composed: AppManifest)
    requires Filter((name: string) => name in stock.middleware, composed.middleware) == stock.middleware
    ensures Delta(stock, composed).middlewareRemoved == [] && !Delta(stock, composed).stockReordered
  {
    FilterAll((name: string) => name in composed.middleware, stock.middleware);
    FilterNone((name: string) => name !in composed.middleware, stock.middleware);
  }

  /** The delta of a splice reports no removal and no reorder, of middleware or of routes, and
      its additions are the client's own. */
  lemma SpliceDelta(view: View, stock: seq<AppModule>, client: seq<AppModule>, composed: seq<AppModule>,
          builtIn: set<string>)
    requires Splice(stock, client, composed) && ContextFree(view, stock)
    requires ClassNames(Contributions(view, client, Context(composed))) !! ClassNames(Stack(view, stock))
    ensures var d := Delta(Manifest(view, stock, builtIn), Manifest(view, composed, builtIn));
      && d.middlewareRemoved == [] && !d.stockReordered
      && d.routesRemoved == {} && d.routesAdded <= ListedRoutes(client)
      && forall name <- d.middlewareAdded :: name in ClassNames(Contributions(view, client, Context(composed)))
  {
    var ms, mc := Manifest(view, stock, builtIn), Manifest(view, composed, builtIn);
    var names := ClassNames(Stack(view, stock));
    SpliceKeepsStack(view, stock, client, composed);
    MiddlewareNames(view, stock);
    FilterNames(names, Stack(view, composed));
    FilterSame((name: string) => name in ms.middleware, (name: string) => name in names, mc.middleware);
    CleanDelta(ms, mc);
    SpliceListedRoutes(stock, client, composed);
    ComposedClasses(view, stock, client, composed);
  }

  lemma ComposedClasses(view: View, stock: seq<AppModule>, client: seq<AppModule>, composed: seq<AppModule>)
    requires Splice(stock, client, composed) && ContextFree(view, stock)
    ensures forall name <- NamesOf(Stack(view, composed)) ::
              name in NamesOf(Stack(view, stock)) || name in ClassNames(Contributions(view, client, Context(composed)))
  {
    StackClasses(view, composed);
    StackClasses(view, stock);
    MiddlewareNames(view, stock);
    ContextFreeContributions(view, stock, Context(stock), Context(composed));
    SpliceShapes(view, stock, client, composed, Context(composed));
  }

  lemma {:induction false} SpliceShapes(view: View, stock: seq<AppModule>, client: seq<AppModule>,
          composed: seq<AppModule>, context: Allowlist)
    requires Splice(stock, client, composed)
    ensures forall s <- Contributions(view, composed, context) ::
              s in Contributions(view, stock, context) || s in Contributions(view, client, context)
    decreases |composed|
  {
    if composed == [] {
    } else if stock != [] && composed[0] == stock[0] && Splice(stock[1..], client, composed[1..]) {
      SpliceShapes(view, stock[1..], client, composed[1..], context);
    } else {
      SpliceShapes(view, stock, client[1..], composed[1..], context);
    }
  }

  lemma StackClasses(view: View, modules: seq<AppModule>)
    ensures ClassNames(Stack(view, modules)) == ClassNames(Contributions(view, modules, Context(modules)))
    ensures forall name <- NamesOf(Stack(view, modules)) :: name in ClassNames(Stack(view, modules))
  {
    var own := Contributions(view, modules, Context(modules));
    StackIsLayerSort(view, modules, Context(modules));
    SortSorts(LayerLeq, own);
    assert forall s :: s in own <==> s in multiset(own);
    assert forall s :: s in Stack(view, modules) <==> s in multiset(Stack(view, modules));
  }

  // ----- routes -----

  /** A request, as the keys it matches: a path template matches many paths. */
  type Request = string -> bool

  predicate Serves(e: Contributed, request: Request) { exists key <- RouteKeys(e.spec) :: request(key) }

  /** First match wins: the first spec that serves the request. */
  function Dispatch(entries: seq<Contributed>, request: Request): Option<Contributed> {
    if entries == [] then None
    else if Serves(entries[0], request) then Some(entries[0])
    else Dispatch(entries[1..], request)
  }

  /** A request that matches one key only. */
  function Exactly(key: string): Request { k => k == key }

  lemma {:induction false} SplicePrepend<T(!new)>(head: seq<T>, base: seq<T>, added: seq<T>, whole: seq<T>)
    requires Splice(base, added, whole)
    ensures Splice(head + base, added, head + whole) && Splice(base, head + added, head + whole)
  {
    if head == [] {
      assert head + base == base && head + added == added && head + whole == whole;
    } else {
      SplicePrepend(head[1..], base, added, whole);
      assert (head + base)[1..] == head[1..] + base;
      assert (head + added)[1..] == head[1..] + added;
      assert (head + whole)[1..] == head[1..] + whole;
    }
  }

  /** Splicing modules splices their routes. */
  lemma {:induction false} SpliceRoutes(stock: seq<AppModule>, client: seq<AppModule>, composed: seq<AppModule>)
    requires Splice(stock, client, composed)
    ensures Splice(CollectRoutes(stock), CollectRoutes(client), CollectRoutes(composed))
    decreases |composed|
  {
    if composed == [] {
    } else if stock != [] && composed[0] == stock[0] && Splice(stock[1..], client, composed[1..]) {
      SpliceRoutes(stock[1..], client, composed[1..]);
      SplicePrepend(ModuleRoutes(composed[0]), CollectRoutes(stock[1..]), CollectRoutes(client),
          CollectRoutes(composed[1..]));
    } else {
      SpliceRoutes(stock, client[1..], composed[1..]);
      SplicePrepend(ModuleRoutes(composed[0]), CollectRoutes(stock), CollectRoutes(client[1..]),
          CollectRoutes(composed[1..]));
    }
  }

  lemma SpliceListedRoutes(stock: seq<AppModule>, client: seq<AppModule>, composed: seq<AppModule>)
    requires Splice(stock, client, composed)
    ensures ListedRoutes(composed) == ListedRoutes(stock) + ListedRoutes(client)
  {
    SpliceRoutes(stock, client, composed);
    SpliceMembers(CollectRoutes(stock), CollectRoutes(client), CollectRoutes(composed));
  }

  lemma DeclaredTail(mounted: seq<seq<string>>, overrides: seq<seq<string>>, key: string)
    requires |mounted| == |overrides| > 0 && Declared(mounted, overrides, key) && key !in mounted[0]
    ensures Declared(mounted[1..], overrides[1..], key)
  {
    forall i, j | 0 <= i < j < |mounted[1..]| && Earliest(mounted[1..], key, i) && key in mounted[1..][j]
      ensures key in overrides[1..][i]
    {
      forall h | 0 <= h < i + 1 ensures key !in mounted[h] { assert h > 0 ==> mounted[h] == mounted[1..][h - 1]; }
      assert Earliest(mounted, key, i + 1) && key in mounted[j + 1];
    }
  }

  /** A first spec that another one collides with must declare it. */
  lemma LoserElsewhere(mounted: seq<seq<string>>, overrides: seq<seq<string>>, key: string, j: nat)
    requires 0 < j < |mounted| && Declared(mounted, overrides, key) && key in mounted[j]
    ensures key in mounted[0] ==> overrides != [] && key in overrides[0]
  {
    if key in mounted[0] { assert Earliest(mounted, key, 0); }
  }

  lemma DeclaredRest(entries: seq<Contributed>, key: string)
    requires entries != [] && Declared(Mounted(entries), Overrides(entries), key) && key !in RouteKeys(entries[0].spec)
    ensures Declared(Mounted(entries[1..]), Overrides(entries[1..]), key)
  {
    assert Mounted(entries)[1..] == Mounted(entries[1..]) && Overrides(entries)[1..] == Overrides(entries[1..]);
    DeclaredTail(Mounted(entries), Overrides(entries), key);
  }

  /** A client's spec in front of a tier's key that it does not override does not mount it. */
  lemma ClientHeadYields(stock: seq<Contributed>, client: seq<Contributed>, composed: seq<Contributed>, key: string)
    requires composed != [] && key !in composed[0].spec.overrides && Splice(stock, client, composed[1..])
    requires Declared(Mounted(composed), Overrides(composed), key)
    requires exists e <- stock :: key in RouteKeys(e.spec)
    ensures key !in RouteKeys(composed[0].spec)
  {
    var e :| e in stock && key in RouteKeys(e.spec);
    SpliceMembers(stock, client, composed[1..]);
    var j :| 0 <= j < |composed[1..]| && composed[1..][j] == e;
    LoserElsewhere(Mounted(composed), Overrides(composed), key, j + 1);
  }

  lemma {:induction false} SpliceDispatch(stock: seq<Contributed>, client: seq<Contributed>,
          composed: seq<Contributed>, key: string)
    requires Splice(stock, client, composed)
    requires Declared(Mounted(composed), Overrides(composed), key)
    requires exists e <- stock :: key in RouteKeys(e.spec)
    requires forall e <- client :: key !in e.spec.overrides
    ensures Dispatch(composed, Exactly(key)) == Dispatch(stock, Exactly(key))
    decreases |composed|
  {
    ServesExactly(composed[0], key);
    if stock != [] && composed[0] == stock[0] && Splice(stock[1..], client, composed[1..]) {
      if key !in RouteKeys(stock[0].spec) {
        DeclaredRest(composed, key);
        SpliceDispatch(stock[1..], client, composed[1..], key);
      }
    } else {
      ClientHeadYields(stock, client[1..], composed, key);
      DeclaredRest(composed, key);
      SpliceDispatch(stock, client[1..], composed[1..], key);
    }
  }

  lemma ServesExactly(e: Contributed, key: string)
    ensures Serves(e, Exactly(key)) <==> key in RouteKeys(e.spec)
  {
    if key in RouteKeys(e.spec) { assert Exactly(key)(key); }
  }

  /** No undeclared shadowing: if the composition passes the collision check and no client spec
      lists a tier's key in its overrides, a request that matches that key alone is served by the
      very spec that serves it in the tier's own app, wherever the client's modules stand. */
  lemma SpliceKeepsDispatch(stock: seq<AppModule>, client: seq<AppModule>, composed: seq<AppModule>, key: string)
    requires Splice(stock, client, composed)
    requires NoUndeclared(Mounted(CollectRoutes(composed)), Overrides(CollectRoutes(composed)))
    requires exists e <- CollectRoutes(stock) :: key in RouteKeys(e.spec)
    requires forall e <- CollectRoutes(client) :: key !in e.spec.overrides
    ensures Dispatch(CollectRoutes(composed), Exactly(key)) == Dispatch(CollectRoutes(stock), Exactly(key))
    ensures Dispatch(CollectRoutes(stock), Exactly(key)).Some?
  {
    SpliceRoutes(stock, client, composed);
    SpliceDispatch(CollectRoutes(stock), CollectRoutes(client), CollectRoutes(composed), key);
    var e :| e in CollectRoutes(stock) && key in RouteKeys(e.spec);
    ServesExactly(e, key);
    DispatchFinds(CollectRoutes(stock), Exactly(key));
  }

  /** First match finds no spec exactly when none serves the request, and otherwise the first that does. */
  lemma {:induction false} DispatchFinds(entries: seq<Contributed>, request: Request)
    ensures Dispatch(entries, request).None? <==> forall e <- entries :: !Serves(e, request)
    ensures Dispatch(entries, request).Some? ==> ServedFirst(entries, request, Dispatch(entries, request).value)
  {
    if entries == [] {
    } else {
      var rest := entries[1..];
      DispatchFinds(rest, request);
      assert entries == [entries[0]] + rest;
      if Serves(entries[0], request) {
        assert IsFirst(entries, 0, request);
      } else if Dispatch(rest, request).Some? {
        var i: nat :| IsFirst(rest, i, request) && rest[i] == Dispatch(rest, request).value;
        FirstMoves(entries[0], rest, request, i);
      }
    }
  }

  /** No spec before this one serves the request. */
  predicate IsFirst(entries: seq<Contributed>, i: nat, request: Request) {
    i < |entries| && Serves(entries[i], request) && forall k | 0 <= k < i :: !Serves(entries[k], request)
  }

  ghost predicate ServedFirst(entries: seq<Contributed>, request: Request, e: Contributed) {
    exists i: nat :: IsFirst(entries, i, request) && entries[i] == e
  }

  lemma FirstMoves(head: Contributed, rest: seq<Contributed>, request: Request, i: nat)
    requires !Serves(head, request) && IsFirst(rest, i, request)
    ensures IsFirst([head] + rest, i + 1, request)
  {
    var all := [head] + rest;
    assert all[i + 1] == rest[i];
    forall k | 0 <= k < i + 1 ensures !Serves(all[k], request) {
      if k > 0 { assert all[k] == rest[k - 1]; }
    }
  }

  // ----- any request -----

  /** A client spec that serves the request stands ahead of the tier's own winner, or anywhere if
      the tier has none. */
  ghost predicate TakenAt(client: seq<Contributed>, composed: seq<Contributed>, winner: Option<Contributed>,
          request: Request, i: nat)
  {
    && i < |composed| && composed[i] in client && Serves(composed[i], request)
    && (winner.Some? ==> winner.value !in composed[..i])
  }

  ghost predicate Taken(client: seq<Contributed>, composed: seq<Contributed>, winner: Option<Contributed>,
          request: Request)
  {
    exists i: nat :: TakenAt(client, composed, winner, request, i)
  }

  ghost predicate Apart<T(!new)>(stock: seq<T>, client: seq<T>) { forall x <- client :: x !in stock }

  /** Exactly when a splice changes who serves a request, whatever keys the request matches. */
  lemma {:induction false} SpliceDispatchIff(stock: seq<Contributed>, client: seq<Contributed>,
          composed: seq<Contributed>, request: Request)
    requires Splice(stock, client, composed) && Apart(stock, client)
    ensures Dispatch(composed, request) == Dispatch(stock, request) <==>
              !Taken(client, composed, Dispatch(stock, request), request)
    decreases |composed|
  {
    if composed == [] {
    } else if stock != [] && composed[0] == stock[0] && Splice(stock[1..], client, composed[1..]) {
      DispatchFinds(stock, request);
      if Serves(stock[0], request) {
        StockHeadTaken(client, composed, request);
      } else {
        SpliceDispatchIff(stock[1..], client, composed[1..], request);
        TakenBehind(client, client, composed, Dispatch(stock, request), request);
      }
    } else {
      DispatchFinds(stock, request);
      if Serves(composed[0], request) {
        assert TakenAt(client, composed, Dispatch(stock, request), request, 0);
      } else {
        SpliceDispatchIff(stock, client[1..], composed[1..], request);
        TakenBehind(client, client[1..], composed, Dispatch(stock, request), request);
      }
    }
  }

  /** A winner at the head is behind nobody. */
  lemma StockHeadTaken(client: seq<Contributed>, composed: seq<Contributed>, request: Request)
    requires composed != [] && composed[0] !in client
    ensures !Taken(client, composed, Some(composed[0]), request)
  {
    forall i: nat | i < |composed| && composed[i] in client ensures composed[0] in composed[..i] {
      assert composed[..i][0] == composed[0];
    }
  }

  /** A head that does not serve the request changes nothing for those behind it. */
  lemma TakenBehind(client: seq<Contributed>, rest: seq<Contributed>, composed: seq<Contributed>,
          winner: Option<Contributed>, request: Request)
    requires composed != [] && !Serves(composed[0], request) && (winner.Some? ==> winner.value != composed[0])
    requires forall e | Serves(e, request) :: e in client <==> e in rest
    ensures Taken(client, composed, winner, request) <==> Taken(rest, composed[1..], winner, request)
  {
    if i: nat :| TakenAt(client, composed, winner, request, i) {
      assert composed[..i] == [composed[0]] + composed[1..][..i - 1];
      assert TakenAt(rest, composed[1..], winner, request, i - 1);
    }
    if i: nat :| TakenAt(rest, composed[1..], winner, request, i) {
      assert composed[..i + 1] == [composed[0]] + composed[1..][..i];
      assert TakenAt(client, composed, winner, request, i + 1);
    }
  }

  lemma {:induction false} RouteOwner(modules: seq<AppModule>, e: Contributed)
    requires e in CollectRoutes(modules)
    ensures exists m <- modules :: m.name == e.moduleName
  {
    assert modules == [modules[0]] + modules[1..];
    if e !in ModuleRoutes(modules[0]) { RouteOwner(modules[1..], e); }
  }

  /** Where all names differ, the client's differ from the tier's. */
  lemma {:induction false} SpliceNamesApart(stock: seq<AppModule>, client: seq<AppModule>, composed: seq<AppModule>,
          s: AppModule, c: AppModule)
    requires Splice(stock, client, composed) && NamesDistinct(composed) && s in stock && c in client
    ensures s.name != c.name
    decreases |composed|
  {
    assert NamesDistinct(composed[1..]);
    if stock != [] && composed[0] == stock[0] && Splice(stock[1..], client, composed[1..]) {
      SpliceMembers(stock[1..], client, composed[1..]);
      if s == stock[0] {
        HeadNameApart(composed, c);
      } else {
        SpliceNamesApart(stock[1..], client, composed[1..], s, c);
      }
    } else {
      SpliceMembers(stock, client[1..], composed[1..]);
      if c == client[0] {
        HeadNameApart(composed, s);
      } else {
        SpliceNamesApart(stock, client[1..], composed[1..], s, c);
      }
    }
  }

  lemma HeadNameApart(modules: seq<AppModule>, m: AppModule)
    requires modules != [] && NamesDistinct(modules) && m in modules[1..]
    ensures m.name != modules[0].name
  {
    var i :| 0 <= i < |modules[1..]| && modules[1..][i] == m;
    assert modules[i + 1] == m;
  }

  /** In an app that builds, a request is served by another spec than in the tier's own app exactly
      when some client spec that matches it is mounted ahead of the tier's spec for it. */
  lemma SpliceServesIff(stock: seq<AppModule>, client: seq<AppModule>, composed: seq<AppModule>, request: Request)
    requires Splice(stock, client, composed) && NamesDistinct(composed)
    ensures var own := Dispatch(CollectRoutes(stock), request);
            Dispatch(CollectRoutes(composed), request) != own <==>
              Taken(CollectRoutes(client), CollectRoutes(composed), own, request)
  {
    SpliceRoutes(stock, client, composed);
    forall e | e in CollectRoutes(client) ensures e !in CollectRoutes(stock) {
      if e in CollectRoutes(stock) {
        RouteOwner(stock, e);
        RouteOwner(client, e);
        var s :| s in stock && s.name == e.moduleName;
        var c :| c in client && c.name == e.moduleName;
        SpliceNamesApart(stock, client, composed, s, c);
        assert false;
      }
    }
    SpliceDispatchIff(CollectRoutes(stock), CollectRoutes(client), CollectRoutes(composed), request);
  }

  /** So the collision check does not see every client route that takes a tier's requests: two specs
      with different keys pass it, and the first answers a request that matches both. */
  lemma TemplateTakesRequest(own: Contributed, other: Contributed, key: string, key': string, request: Request)
    requires RouteKeys(own.spec) == [key] && RouteKeys(other.spec) == [key'] && key != key'
    requires request(key) && request(key')
    ensures Splice([own], [other], [other, own]) && NoUndeclared(Mounted([other, own]), Overrides([other, own]))
    ensures Dispatch([own], request) == Some(own) && Dispatch([other, own], request) == Some(other)
  {
    assert Splice([own], [], [own]);
    assert [other, own][1..] == [own];
    assert Mounted([other, own]) == [[key'], [key]];
    assert Serves(own, request) && Serves(other, request);
  }
}
