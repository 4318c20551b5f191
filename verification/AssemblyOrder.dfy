/** What the composed lists hold and in which order, said of the modules themselves. */
module AssemblyOrder {
  import opened Wrappers
  import opened Sequences
  import opened Assembly
  import opened AppBuilder
  import opened AssemblySplice

  // ----- route keys and manifest lines -----

  /** A key is mounted exactly when some route with a path has it as one of its methods, a space, the
      spec's prefix and the path; a route without methods is a websocket's and counts as `WS`. */
  lemma RouteKeyIff(spec: RouteSpec, key: string)
    ensures key in RouteKeys(spec) <==>
              exists route <- spec.routes, verb: string ::
                && route.path.Some? && (verb in route.methods || (route.methods == [] && verb == "WS"))
                && key == verb + " " + spec.prefix + route.path.value
  {
    var each := (route: Route) => KeysOf(route, spec.prefix);
    FlattenMembers(Map(each, spec.routes), key);
    if key in RouteKeys(spec) {
      var keys :| keys in Map(each, spec.routes) && key in keys;
      var i :| 0 <= i < |spec.routes| && Map(each, spec.routes)[i] == keys;
      var verb := KeyOfRoute(spec.routes[i], spec.prefix, key);
      assert spec.routes[i] in spec.routes;
    }
    forall route <- spec.routes, verb: string
      | route.path.Some? && (verb in route.methods || (route.methods == [] && verb == "WS"))
      ensures verb + " " + spec.prefix + route.path.value in RouteKeys(spec)
    {
      RouteHasKey(route, spec.prefix, verb);
      var i :| 0 <= i < |spec.routes| && spec.routes[i] == route;
      assert Map(each, spec.routes)[i] == KeysOf(route, spec.prefix);
      FlattenMembers(Map(each, spec.routes), verb + " " + spec.prefix + route.path.value);
    }
  }

  /** Keys are listed in route order: those of the first routes stand before those of the rest. */
  lemma RouteKeysInOrder(spec: RouteSpec, before: seq<Route>, after: seq<Route>)
    ensures RouteKeys(spec.(routes := before + after)) ==
            RouteKeys(spec.(routes := before)) + RouteKeys(spec.(routes := after))
  {
    var each := (route: Route) => KeysOf(route, spec.prefix);
    MapAppend(each, before, after);
    FlattenAppend(Map(each, before), Map(each, after), Map(each, before + after));
  }

  lemma KeyOfRoute(route: Route, prefix: string, key: string) returns (verb: string)
    requires key in KeysOf(route, prefix)
    ensures route.path.Some? && (verb in route.methods || (route.methods == [] && verb == "WS"))
    ensures key == verb + " " + prefix + route.path.value
  {
    var i :| 0 <= i < |KeysOf(route, prefix)| && KeysOf(route, prefix)[i] == key;
    var methods := if route.methods == [] then ["WS"] else route.methods;
    verb := methods[i];
  }

  lemma RouteHasKey(route: Route, prefix: string, verb: string)
    requires route.path.Some? && (verb in route.methods || (route.methods == [] && verb == "WS"))
    ensures verb + " " + prefix + route.path.value in KeysOf(route, prefix)
  {
    var methods := if route.methods == [] then ["WS"] else route.methods;
    var i :| 0 <= i < |methods| && methods[i] == verb;
    assert KeysOf(route, prefix)[i] == verb + " " + prefix + route.path.value;
  }

  /** A spec's lines of the manifest: one for each route with a path, all its methods together. */
  lemma ListedIff(spec: RouteSpec, line: string)
    ensures line in ListedSpec(spec) <==>
              exists route <- spec.routes ::
                && route.path.Some?
                && var verb := if route.methods == [] then "WS" else Joined(route.methods);
                   line == verb + " " + spec.prefix + route.path.value
  {
    var each := (route: Route) => ListedRoute(route, spec.prefix);
    FlattenMembers(Map(each, spec.routes), line);
    if line in ListedSpec(spec) {
      var lines :| lines in Map(each, spec.routes) && line in lines;
      var i :| 0 <= i < |spec.routes| && Map(each, spec.routes)[i] == lines;
      assert spec.routes[i] in spec.routes;
    }
    forall route | route in spec.routes && line in ListedRoute(route, spec.prefix) ensures line in ListedSpec(spec) {
      var i :| 0 <= i < |spec.routes| && spec.routes[i] == route;
      assert Map(each, spec.routes)[i] == ListedRoute(route, spec.prefix);
    }
  }

  /** The comma-separated parts of a text. */
  function Parts(s: string): (r: seq<string>)
    ensures r != []
  {
    if s == "" then [""]
    else
      var rest := Parts(s[1..]);
      if s[0] == ',' then [""] + rest else [[s[0]] + rest[0]] + rest[1..]
  }

  lemma {:induction false} PartsOf(word: string, rest: string)
    requires ',' !in word
    ensures Parts(word + "," + rest) == [word] + Parts(rest) && Parts(word) == [word]
  {
    if word == "" {
      assert word + "," + rest == "," + rest;
    } else {
      PartsOf(word[1..], rest);
      var whole := word + "," + rest;
      assert whole[1..] == word[1..] + "," + rest && whole[0] == word[0];
      assert word[0] in word;
      assert [word[0]] + word[1..] == word;
      assert ([word[1..]] + Parts(rest))[1..] == Parts(rest);
    }
  }

  /** Joining methods with commas loses none of them. */
  lemma {:induction false} JoinedParts(methods: seq<string>)
    requires methods != [] && forall m <- methods :: ',' !in m
    ensures Parts(Joined(methods)) == methods
  {
    if |methods| == 1 {
      PartsOf(methods[0], "");
    } else {
      JoinedParts(methods[1..]);
      PartsOf(methods[0], Joined(methods[1..]));
    }
  }

  // ----- module order -----

  /** Routes are collected in module order. */
  lemma {:induction false} RoutesInOrder(before: seq<AppModule>, after: seq<AppModule>, all: seq<AppModule>)
    requires all == before + after
    ensures CollectRoutes(all) == CollectRoutes(before) + CollectRoutes(after)
  {
    if before == [] {
      assert all == after;
    } else {
      RoutesInOrder(before[1..], after, all[1..]);
    }
  }

  /** And each module's in its own order, under its name. */
  lemma RoutesOfModule(m: AppModule)
    ensures CollectRoutes([m]) == ModuleRoutes(m) && |ModuleRoutes(m)| == |m.routes|
    ensures forall i | 0 <= i < |m.routes| :: ModuleRoutes(m)[i] == Contributed(m.name, m.routes[i])
  {
  }

  /** A module's handlers and prefixes are met in its own order. */
  lemma OneMoreModule(modules: seq<AppModule>, m: AppModule)
    ensures Registrations(modules + [m]) == Registrations(modules) + m.handlers
    ensures AllPrefixes(modules + [m]) == AllPrefixes(modules) + m.allowlist.prefixes
  {
    assert (modules + [m])[..|modules|] == modules;
  }

  lemma NoModules()
    ensures Registrations([]) == [] && AllPrefixes([]) == [] && CollectRoutes([]) == []
  {
  }

  /** Handlers are registered in module order. */
  lemma {:induction false} RegistrationsInOrder(before: seq<AppModule>, after: seq<AppModule>, all: seq<AppModule>)
    requires all == before + after
    ensures Registrations(all) == Registrations(before) + Registrations(after)
  {
    if after == [] {
      assert all == before;
    } else {
      RegistrationsInOrder(before, after[..|after| - 1], all[..|all| - 1]);
      Regroup(Registrations(before), Registrations(after[..|after| - 1]), after[|after| - 1].handlers);
    }
  }

  /** Allowlist prefixes are met in module order. */
  lemma {:induction false} PrefixesInOrder(before: seq<AppModule>, after: seq<AppModule>, all: seq<AppModule>)
    requires all == before + after
    ensures AllPrefixes(all) == AllPrefixes(before) + AllPrefixes(after)
  {
    if after == [] {
      assert all == before;
    } else {
      PrefixesInOrder(before, after[..|after| - 1], all[..|all| - 1]);
      Regroup(AllPrefixes(before), AllPrefixes(after[..|after| - 1]), after[|after| - 1].allowlist.prefixes);
    }
  }

  // ----- the middleware stack -----

  /** The entries are each module's specs, with their places and the module's name. */
  lemma {:induction false} EntriesExact(modules: seq<AppModule>, context: Allowlist, e: OrderedMiddleware)
    ensures e in EntriesOf(modules, context) <==>
              && e.moduleIndex < |modules| && e.moduleName == modules[e.moduleIndex].name
              && e.specIndex < |modules[e.moduleIndex].middleware(context)|
              && e.spec == modules[e.moduleIndex].middleware(context)[e.specIndex]
  {
    if modules == [] {
    } else {
      var n := |modules| - 1;
      EntriesExact(modules[..n], context, e);
      var last := ModuleEntries(modules[n], n, context);
      if e.moduleIndex == n && e.specIndex < |last| { assert last[e.specIndex] in last; }
    }
  }

  /** The stack holds each entry once, the lowest layer outermost; within a layer earlier modules stand
      further out, and within a module earlier specs. */
  lemma StackOrdered(modules: seq<AppModule>, context: Allowlist)
    ensures multiset(CollectMiddleware(modules, context)) == multiset(EntriesOf(modules, context))
    ensures forall i, j | 0 <= i < j < |CollectMiddleware(modules, context)| ::
              var a, b := CollectMiddleware(modules, context)[i], CollectMiddleware(modules, context)[j];
              || a.spec.layer < b.spec.layer
              || (a.spec.layer == b.spec.layer && a.moduleIndex < b.moduleIndex)
              || (a.spec.layer == b.spec.layer && a.moduleIndex == b.moduleIndex && a.specIndex <= b.specIndex)
  {
    assert TotalPreorder(TripleLeq);
    SortSorts(TripleLeq, EntriesOf(modules, context));
  }
}
