/** The app the builder composes, and the composed lifespan that starts and stops it. */
module AppBuilder {
  import opened Wrappers
  import opened Sequences
  import opened Assembly
  import opened StateWriters

  function Specs(ordered: seq<OrderedMiddleware>): seq<MiddlewareSpec> {
    Map((e: OrderedMiddleware) => e.spec, ordered)
  }

  /** What a module's exit does to the exception on its way out, if there is one. */
  datatype Exit = Clean | Raises | Swallows

  /** What one module's lifespan does: the state keys its startup sets, whether it then raises, and
      what its exit does. */
  datatype Startup = Startup(sets: set<string>, fails: bool, exit: Exit)

  /** What ends a lifespan that does not end normally. `NeverYielded` is the context manager's own
      complaint about a startup that ended without an exception and without serving. */
  datatype Cause = StartupError(i: nat) | StateMissing | ExitError(i: nat) | NeverYielded

  datatype Event = Entered(i: nat) | StartFailed(i: nat) | Unpopulated | Serving | Exited(i: nat)

  function Enters(n: nat): (r: seq<Event>)
    ensures |r| == n && forall i | 0 <= i < n :: r[i] == Entered(i)
  {
    seq(n, i requires 0 <= i < n => Entered(i))
  }

  /** The exits of the first `n` modules, last entered first. */
  function Unwind(n: nat): (r: seq<Event>)
    ensures |r| == n && forall i | 0 <= i < n :: r[n - 1 - i] == Exited(i)
  {
    seq(n, k requires 0 <= k < n => Exited(n - 1 - k))
  }

  /** What is left of an exception once the exits of the first `n` modules have run. */
  function Unwound(starts: seq<Startup>, n: nat, cause: Option<Cause>): Option<Cause>
    requires n <= |starts|
  {
    if n == 0 then cause
    else
      Unwound(starts, n - 1, match starts[n - 1].exit
                             case Clean => cause
                             case Raises => Some(ExitError(n - 1))
                             case Swallows => None)
  }

  /** Exits run last entered first, so the exit with the lowest number that is not clean has the last
      word on the exception. */
  lemma {:induction false} LastWord(starts: seq<Startup>, n: nat, cause: Option<Cause>, i: nat)
    requires i < n <= |starts| && !starts[i].exit.Clean? && forall k | 0 <= k < i :: starts[k].exit.Clean?
    ensures Unwound(starts, n, cause) == if starts[i].exit.Raises? then Some(ExitError(i)) else None
    decreases n
  {
    if i == n - 1 {
      CleanExits(starts, i, if starts[i].exit.Raises? then Some(ExitError(i)) else None);
    } else {
      var next :=
        match starts[n - 1].exit
        case Clean => cause
        case Raises => Some(ExitError(n - 1))
        case Swallows => None;
      LastWord(starts, n - 1, next, i);
    }
  }

  lemma {:induction false} CleanExits(starts: seq<Startup>, n: nat, cause: Option<Cause>)
    requires n <= |starts| && forall k | 0 <= k < n :: starts[k].exit.Clean?
    ensures Unwound(starts, n, cause) == cause
  {
    if n == 0 {
    } else {
      CleanExits(starts, n - 1, cause);
    }
  }

  function Started(cause: Option<Cause>, left: Option<Cause>): Option<Cause> {
    if cause.Some? && left.None? then Some(NeverYielded) else left
  }

  // ----- exception handlers -----

  function Registrations(modules: seq<AppModule>): seq<Registration> {
    if modules == [] then [] else Registrations(modules[..|modules| - 1]) + modules[|modules| - 1].handlers
  }

  function Handlers(registrations: seq<Registration>): map<string, nat> {
    if registrations == [] then map[]
    else
      var last := registrations[|registrations| - 1];
      Handlers(registrations[..|registrations| - 1])[last.exception := last.handler]
  }

  /** Registration `i` is the last one made for this class, and is of this handler. */
  predicate LastFor(registrations: seq<Registration>, i: nat, exception: string, handler: nat) {
    && i < |registrations| && registrations[i] == Registration(exception, handler)
    && forall k | i < k < |registrations| :: registrations[k].exception != exception
  }

  /** A class is handled exactly by the last registration made for it. */
  lemma {:induction false} LastRegistrationWins(registrations: seq<Registration>, exception: string, handler: nat)
    ensures exception in Handlers(registrations) && Handlers(registrations)[exception] == handler <==>
              exists i: nat :: LastFor(registrations, i, exception, handler)
  {
    if registrations == [] {
    } else {
      var init, last := registrations[..|registrations| - 1], registrations[|registrations| - 1];
      assert registrations == init + [last];
      LastRegistrationWins(init, exception, handler);
      LastForNext(init, last, exception, handler);
    }
  }

  lemma LastForNext(init: seq<Registration>, last: Registration, exception: string, handler: nat)
    ensures (exists i: nat :: LastFor(init + [last], i, exception, handler)) <==>
              if last.exception == exception then last.handler == handler
              else exists i: nat :: LastFor(init, i, exception, handler)
  {
    var all := init + [last];
    assert all[|init|] == last;
    if last == Registration(exception, handler) {
      assert LastFor(all, |init|, exception, handler);
    } else if last.exception != exception {
      forall i: nat | LastFor(init, i, exception, handler) ensures LastFor(all, i, exception, handler) {}
      forall i: nat | LastFor(all, i, exception, handler) ensures LastFor(init, i, exception, handler) {
        assert forall k | i < k < |init| :: all[k] == init[k];
      }
    }
  }

  // ----- the app -----

  ghost predicate Populated(state: set<string>, requirements: seq<Requirement>) {
    forall req <- requirements :: req.key in state
  }

  /** What follows the modules' startups: a failure, the state check's verdict, or service. */
  function Turn(entered: nat, modules: nat, populated: bool): Event {
    if entered < modules then StartFailed(entered) else if populated then Serving else Unpopulated
  }

  function CauseOf(turn: Event): Option<Cause> {
    match turn case StartFailed(i) => Some(StartupError(i)) case Unpopulated => Some(StateMissing) case _ => None
  }

  function KeysSet(starts: seq<Startup>): set<string> { set s <- starts, key <- s.sets :: key }

  ghost function BuiltState(modules: seq<AppModule>): set<string> { set m <- modules, key <- m.stateEntries :: key }

  /** A module of this name writes the key. */
  ghost predicate IsWriter(modules: seq<AppModule>, name: string, key: string) {
    exists m <- modules :: m.name == name && Writes(m, key)
  }

  /** The checks run in this order, and the first to fail names the error. */
  ghost predicate RefusedBy(modules: seq<AppModule>, e: AssemblyError) {
    if !NamesDistinct(modules) then e.DuplicateModuleName?
    else if !OneWriterEach(modules) then e.DuplicateStateProvider?
    else if !NoUndeclared(Mounted(CollectRoutes(modules)), Overrides(CollectRoutes(modules))) then e.RouteCollision?
    else e.MissingStateProvider?
  }

  /** Every check the builder makes, in one predicate. */
  ghost predicate Buildable(modules: seq<AppModule>) {
    && NamesDistinct(modules)
    && OneWriterEach(modules)
    && NoUndeclared(Mounted(CollectRoutes(modules)), Overrides(CollectRoutes(modules)))
    && forall e <- CollectMiddleware(modules, Context(modules)), key <- e.spec.requiresState ::
         exists m <- modules :: Writes(m, key)
  }

  class App {
    var routes: seq<Contributed>
    var state: set<string>
    var handlers: map<string, nat>
    var middleware: seq<MiddlewareSpec>

    constructor ()
      ensures routes == [] && state == {} && handlers == map[] && middleware == []
    {
      routes, state, handlers, middleware := [], {}, map[], [];
    }

    /** One module's handlers, in contribution order; a class registered again gets the later one. */
    method Register(registrations: seq<Registration>, ghost before: seq<Registration>)
      requires handlers == Handlers(before)
      modifies this`handlers
      ensures handlers == Handlers(before + registrations)
    {
      ghost var soFar := before;
      for j := 0 to |registrations|
        invariant soFar == before + registrations[..j] && handlers == Handlers(soFar)
      {
        var r := registrations[j];
        assert (soFar + [r])[..|soFar|] == soFar;
        handlers := handlers[r.exception := r.handler];
        soFar := soFar + [r];
      }
      assert soFar == before + registrations;
    }

    method RegisterHandlers(modules: seq<AppModule>)
      requires handlers == map[]
      modifies this`handlers
      ensures handlers == Handlers(Registrations(modules))
    {
      for i := 0 to |modules|
        invariant handlers == Handlers(Registrations(modules[..i]))
      {
        assert modules[..i + 1][..i] == modules[..i];
        Register(modules[i].handlers, Registrations(modules[..i]));
      }
      assert modules[..|modules|] == modules;
    }

    /** Each spec is inserted at index 0, last first, so the stack reads outermost first. */
    method AddMiddleware(ordered: seq<OrderedMiddleware>)
      modifies this`middleware
      ensures middleware == Specs(ordered) + old(middleware)
    {
      for i := |ordered| downto 0
        invariant middleware == Specs(ordered[i..]) + old(middleware)
      {
        assert Specs(ordered[i..]) == [ordered[i].spec] + Specs(ordered[i + 1..]);
        middleware := [ordered[i].spec] + middleware;
      }
      assert ordered[0..] == ordered;
    }

    method ApplyStateEntries(modules: seq<AppModule>)
      modifies this`state
      ensures state == old(state) + BuiltState(modules)
    {
      for i := 0 to |modules|
        invariant state == old(state) + BuiltState(modules[..i])
      {
        state := state + (set key <- modules[i].stateEntries);
        assert modules[..i + 1] == modules[..i] + [modules[i]];
      }
      assert modules[..|modules|] == modules;
    }

    /** The composed lifespan. Wherever startup ends, at a module, at the state check, or in
        service, and whatever the exits do to the exception on its way out, the exits are those of
        the modules entered, in reverse, and nothing else. A startup that does not serve always ends
        in an exception, swallowed by an exit or not. */
    method RunLifespan(starts: seq<Startup>, requirements: seq<Requirement>)
      returns (trace: seq<Event>, entered: nat, raised: Option<Cause>)
      modifies this`state
      ensures entered <= |starts| && forall i | 0 <= i < entered :: !starts[i].fails
      ensures entered < |starts| ==> starts[entered].fails
      ensures state == old(state) + KeysSet(if entered < |starts| then starts[..entered + 1] else starts)
      ensures trace == Enters(entered) + [Turn(entered, |starts|, Populated(state, requirements))] + Unwind(entered)
      ensures var cause := CauseOf(Turn(entered, |starts|, Populated(state, requirements)));
              raised == Started(cause, Unwound(starts, entered, cause))
      ensures |trace| == 2 * entered + 1
      ensures trace[entered] == if entered < |starts| then StartFailed(entered)
                                else if forall req <- requirements :: req.key in state then Serving else Unpopulated
      ensures Serving in trace <==> entered == |starts| && forall req <- requirements :: req.key in state
      ensures Serving !in trace ==> raised.Some?
      ensures (forall k | 0 <= k < entered :: starts[k].exit.Clean?) ==>
                raised == if entered < |starts| then Some(StartupError(entered))
                          else if Populated(state, requirements) then None else Some(StateMissing)
      ensures forall i: nat |
                i < entered && !starts[i].exit.Clean? && (forall k | 0 <= k < i :: starts[k].exit.Clean?) ::
                raised == if starts[i].exit.Raises? then Some(ExitError(i))
                          else if Serving in trace then None else Some(NeverYielded)
    {
      var failed;
      trace, entered, failed := Enter(starts);
      var turn := StartFailed(entered);
      if !failed {
        var populated := Verify(requirements);
        turn := if populated then Serving else Unpopulated;
      }
      var left := CauseOf(turn);
      trace := trace + [turn];
      ghost var before := trace;
      var top: nat := entered;
      while top > 0
        invariant 0 <= top <= entered
        invariant trace == before + Unwind(entered)[..entered - top]
        invariant Unwound(starts, entered, CauseOf(turn)) == Unwound(starts, top, left)
      {
        top := top - 1;
        assert Unwind(entered)[entered - top - 1] == Exited(top);
        trace := trace + [Exited(top)];
        left := match starts[top].exit case Clean => left case Raises => Some(ExitError(top)) case Swallows => None;
      }
      raised := Started(CauseOf(turn), left);
      ServingIsTurn(entered, turn, trace);
      if forall k | 0 <= k < entered :: starts[k].exit.Clean? { CleanExits(starts, entered, CauseOf(turn)); }
      forall i: nat | i < entered && !starts[i].exit.Clean? && (forall k | 0 <= k < i :: starts[k].exit.Clean?)
        ensures Unwound(starts, entered, CauseOf(turn)) == if starts[i].exit.Raises? then Some(ExitError(i)) else None
      {
        LastWord(starts, entered, CauseOf(turn), i);
      }
    }

    /** Enter each module's lifespan, in list order, until one raises. */
    method Enter(starts: seq<Startup>) returns (trace: seq<Event>, entered: nat, failed: bool)
      modifies this`state
      ensures entered <= |starts| && forall i | 0 <= i < entered :: !starts[i].fails
      ensures failed == (entered < |starts|) && (failed ==> starts[entered].fails)
      ensures state == old(state) + KeysSet(if failed then starts[..entered + 1] else starts)
      ensures trace == Enters(entered)
    {
      trace, entered := [], 0;
      while entered < |starts|
        invariant entered <= |starts| && forall i | 0 <= i < entered :: !starts[i].fails
        invariant state == old(state) + KeysSet(starts[..entered]) && trace == Enters(entered)
      {
        assert starts[..entered + 1] == starts[..entered] + [starts[entered]];
        state := state + starts[entered].sets;
        if starts[entered].fails { return trace, entered, true; }
        trace, entered := trace + [Entered(entered)], entered + 1;
      }
      assert starts[..entered] == starts;
      failed := false;
    }

    method Verify(requirements: seq<Requirement>) returns (populated: bool)
      ensures populated == Populated(state, requirements)
    {
      for i := 0 to |requirements|
        invariant forall req <- requirements[..i] :: req.key in state
      {
        if requirements[i].key !in state { return false; }
      }
      populated := true;
    }
  }

  /** Builds exactly the compositions that pass every check, and composes what they contribute:
      routes in module order and middleware outermost first. */
  method BuildApp(modules: seq<AppModule>) returns (r: Result<(App, seq<Requirement>), AssemblyError>)
    ensures r.Ok? <==> Buildable(modules)
    ensures r.Err? ==> RefusedBy(modules, r.error)
    ensures r.Ok? ==> var app := r.value.0;
      && fresh(app) && app.routes == CollectRoutes(modules) && app.state == BuiltState(modules)
      && app.handlers == Handlers(Registrations(modules))
      && app.middleware == Specs(CollectMiddleware(modules, Context(modules)))
      && NamesWriters(modules, CollectMiddleware(modules, Context(modules)), r.value.1)
  {
    var providers := ValidateComposition(modules);
    SingleWriterIff(modules);
    if providers.Err? { return Err(providers.error); }
    var contributed := CollectRoutes(modules);
    var collisions := ValidateRouteCollisions(contributed);
    if collisions.Err? { return Err(collisions.error); }
    var context := MergeAllowlists(modules);
    var ordered := CollectMiddleware(modules, context);
    var required := ValidateRequiredState(ordered, providers.value);
    ProvidedIff(modules, providers.value);
    if required.Err? { return Err(required.error); }
    var app := new App();
    app.routes := contributed;
    app.RegisterHandlers(modules);
    app.ApplyStateEntries(modules);
    app.AddMiddleware(ordered);
    RequirementsNameWriters(modules, ordered, providers.value, required.value);
    r := Ok((app, required.value));
  }

  /** Every key the middleware requires is among the requirements, with a module that writes it. */
  ghost predicate NamesWriters(modules: seq<AppModule>, ordered: seq<OrderedMiddleware>,
          requirements: seq<Requirement>) {
    forall e <- ordered, key <- e.spec.requiresState ::
      exists req <- requirements ::
        req.key == key && req.requiredBy == e.moduleName && IsWriter(modules, req.providedBy, key)
  }

  lemma RequirementsNameWriters(modules: seq<AppModule>, ordered: seq<OrderedMiddleware>,
          providers: map<string, string>, requirements: seq<Requirement>)
    requires forall key <- providers :: exists m <- modules :: m.name == providers[key] && Writes(m, key)
    requires forall e <- ordered, key <- e.spec.requiresState ::
               key in providers && Requirement(key, e.moduleName, providers[key]) in requirements
    ensures NamesWriters(modules, ordered, requirements)
  {
    forall e <- ordered, key <- e.spec.requiresState
      ensures exists req <- requirements ::
                req.key == key && req.requiredBy == e.moduleName && IsWriter(modules, req.providedBy, key)
    {
      var req := Requirement(key, e.moduleName, providers[key]);
      assert req in requirements && IsWriter(modules, req.providedBy, key);
    }
  }

  lemma ProvidedIff(modules: seq<AppModule>, providers: map<string, string>)
    requires Provides(providers, Declarations(modules))
    ensures forall key :: key in providers <==> exists m <- modules :: Writes(m, key)
    ensures forall key <- providers :: exists m <- modules :: m.name == providers[key] && Writes(m, key)
  {
    ProvidersAreWriters(modules, providers);
  }

  /** From composition to service: an app either serves, with every state slot its middleware
      requires set, each with exactly one declared writer across both phases, or it raises. */
  method Boot(modules: seq<AppModule>, starts: seq<Startup>)
    returns (app: Result<App, AssemblyError>, trace: seq<Event>, raised: Option<Cause>)
    requires |starts| == |modules|
    ensures app.Ok? <==> Buildable(modules)
    ensures app.Ok? && Serving !in trace ==> raised.Some?
    ensures app.Ok? && Serving in trace ==>
      && OneWriterEach(modules)
      && forall e <- CollectMiddleware(modules, Context(modules)), key <- e.spec.requiresState ::
           key in app.value.state && exists m <- modules :: Writes(m, key)
  {
    var built := BuildApp(modules);
    if built.Err? { return Err(built.error), [], None; }
    app := Ok(built.value.0);
    var entered;
    trace, entered, raised := built.value.0.RunLifespan(starts, built.value.1);
  }

  lemma ServingIsTurn(entered: nat, turn: Event, trace: seq<Event>)
    requires trace == Enters(entered) + [turn] + Unwind(entered)
    ensures Serving in trace <==> turn.Serving?
  {
    if turn.Serving? { assert trace[entered] == turn; }
  }
}
