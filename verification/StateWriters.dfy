/** The single-writer rule, said of the modules themselves. */
module StateWriters {
  import opened Sequences
  import opened Assembly

  /** The module writes this state key, when it is built or when it starts. */
  predicate Writes(m: AppModule, key: string) { key in m.stateEntries || key in m.providesState }

  /** Every key is written by one module at most, in one of the two phases and once. */
  ghost predicate OneWriterEach(modules: seq<AppModule>) {
    && (forall m <- modules ::
          && NoDuplicates(m.stateEntries) && NoDuplicates(m.providesState)
          && forall key <- m.stateEntries :: key !in m.providesState)
    && (forall i, j, key: string | 0 <= i < j < |modules| :: !(Writes(modules[i], key) && Writes(modules[j], key)))
  }

  ghost predicate Declares(decls: seq<(string, string)>, key: string) { exists d <- decls :: d.0 == key }

  lemma SingleAppend(a: seq<(string, string)>, b: seq<(string, string)>)
    ensures SingleWriter(a + b) <==>
              SingleWriter(a) && SingleWriter(b) && forall key :: !(Declares(a, key) && Declares(b, key))
  {
    var all := a + b;
    if SingleWriter(all) {
      forall i, j | 0 <= i < j < |b| ensures b[i].0 != b[j].0 {
        assert all[|a| + i] == b[i] && all[|a| + j] == b[j];
      }
      forall d, e | d in a && e in b ensures d.0 != e.0 {
        var i :| 0 <= i < |a| && a[i] == d;
        var j :| 0 <= j < |b| && b[j] == e;
        assert all[i] == d && all[|a| + j] == e;
      }
      forall i, j | 0 <= i < j < |a| ensures a[i].0 != a[j].0 { assert all[i] == a[i] && all[j] == a[j]; }
    } else {
      var i, j :| 0 <= i < j < |all| && all[i].0 == all[j].0;
      if j < |a| {
        assert a[i] == all[i] && a[j] == all[j];
      } else if i >= |a| {
        assert b[i - |a|] == all[i] && b[j - |a|] == all[j];
      } else {
        assert a[i] in a && b[j - |a|] in b;
        assert Declares(a, all[i].0) && Declares(b, all[i].0);
      }
    }
  }

  lemma DeclaresAppend(a: seq<(string, string)>, b: seq<(string, string)>, key: string)
    ensures Declares(a + b, key) <==> Declares(a, key) || Declares(b, key)
  {
    if d :| d in a && d.0 == key { assert d in a + b; }
    if d :| d in b && d.0 == key { assert d in a + b; }
  }

  lemma SingleTagged(keys: seq<string>, name: string)
    ensures SingleWriter(Tagged(keys, name)) <==> NoDuplicates(keys)
    ensures forall key :: Declares(Tagged(keys, name), key) <==> key in keys
  {
    var tagged := Tagged(keys, name);
    if SingleWriter(tagged) {
      forall i, j | 0 <= i < j < |keys| ensures keys[i] != keys[j] { assert tagged[i].0 != tagged[j].0; }
    }
    forall key | key in keys ensures Declares(tagged, key) {
      var i :| 0 <= i < |keys| && keys[i] == key;
      assert tagged[i] in tagged;
    }
  }

  /** Some module writes the key in this phase. */
  ghost predicate Uses(modules: seq<AppModule>, phase: StatePhase, key: string) {
    exists m <- modules :: key in Keys(m, phase)
  }

  lemma {:induction false} DeclaresPhase(modules: seq<AppModule>, phase: StatePhase, key: string)
    ensures Declares(PhaseDeclarations(modules, phase), key) <==> Uses(modules, phase, key)
  {
    if modules == [] {
    } else {
      var init, m := modules[..|modules| - 1], modules[|modules| - 1];
      DeclaresPhase(init, phase, key);
      SingleTagged(Keys(m, phase), m.name);
      DeclaresAppend(PhaseDeclarations(init, phase), Tagged(Keys(m, phase), m.name), key);
      assert modules == init + [m];
    }
  }

  /** One phase's part of the rule. */
  ghost predicate PhaseOnce(modules: seq<AppModule>, phase: StatePhase) {
    && (forall m <- modules :: NoDuplicates(Keys(m, phase)))
    && (forall i, j, key: string | 0 <= i < j < |modules| ::
          !(key in Keys(modules[i], phase) && key in Keys(modules[j], phase)))
  }

  lemma PhaseOnceNext(init: seq<AppModule>, m: AppModule, phase: StatePhase)
    ensures PhaseOnce(init + [m], phase) <==>
              && PhaseOnce(init, phase) && NoDuplicates(Keys(m, phase))
              && forall key :: !(Uses(init, phase, key) && key in Keys(m, phase))
  {
    var modules := init + [m];
    if PhaseOnce(modules, phase) {
      forall i, j, key: string | 0 <= i < j < |init|
        ensures !(key in Keys(init[i], phase) && key in Keys(init[j], phase))
      {
        assert modules[i] == init[i] && modules[j] == init[j];
      }
      forall key, m' | m' in init && key in Keys(m', phase) ensures key !in Keys(m, phase) {
        var i :| 0 <= i < |init| && init[i] == m';
        assert modules[i] == m' && modules[|init|] == m;
      }
    }
  }

  lemma {:induction false} SinglePhase(modules: seq<AppModule>, phase: StatePhase)
    ensures SingleWriter(PhaseDeclarations(modules, phase)) <==> PhaseOnce(modules, phase)
  {
    if modules == [] {
    } else {
      var init, m := modules[..|modules| - 1], modules[|modules| - 1];
      assert modules == init + [m];
      SinglePhase(init, phase);
      SingleTagged(Keys(m, phase), m.name);
      SingleAppend(PhaseDeclarations(init, phase), Tagged(Keys(m, phase), m.name));
      forall key ensures Declares(PhaseDeclarations(init, phase), key) <==> Uses(init, phase, key) {
        DeclaresPhase(init, phase, key);
      }
      PhaseOnceNext(init, m, phase);
    }
  }

  /** The keys of a list of declarations are unique exactly when every key has one writer. */
  lemma SingleWriterIff(modules: seq<AppModule>)
    ensures SingleWriter(Declarations(modules)) <==> OneWriterEach(modules)
  {
    SinglePhase(modules, BuildTime);
    SinglePhase(modules, Startup);
    SingleAppend(PhaseDeclarations(modules, BuildTime), PhaseDeclarations(modules, Startup));
    forall phase, key ensures Declares(PhaseDeclarations(modules, phase), key) <==> Uses(modules, phase, key) {
      DeclaresPhase(modules, phase, key);
    }
    AcrossPhases(modules);
  }

  lemma AcrossPhases(modules: seq<AppModule>)
    ensures OneWriterEach(modules) <==>
              && PhaseOnce(modules, BuildTime) && PhaseOnce(modules, Startup)
              && forall key :: !(Uses(modules, BuildTime, key) && Uses(modules, Startup, key))
  {
    if OneWriterEach(modules) {
      forall m, m', key | m in modules && m' in modules && key in Keys(m, BuildTime)
        ensures key !in Keys(m', Startup)
      {
        var i :| 0 <= i < |modules| && modules[i] == m;
        var j :| 0 <= j < |modules| && modules[j] == m';
        if i != j { assert Writes(modules[i], key); }
      }
      forall i, j, key: string | 0 <= i < j < |modules|
        ensures !(key in modules[i].stateEntries && key in modules[j].stateEntries)
        ensures !(key in modules[i].providesState && key in modules[j].providesState)
      {
        assert !(Writes(modules[i], key) && Writes(modules[j], key));
      }
    } else if PhaseOnce(modules, BuildTime) && PhaseOnce(modules, Startup) {
      TwiceAcross(modules);
    }
  }

  lemma TwiceAcross(modules: seq<AppModule>)
    requires !OneWriterEach(modules) && PhaseOnce(modules, BuildTime) && PhaseOnce(modules, Startup)
    ensures exists key :: Uses(modules, BuildTime, key) && Uses(modules, Startup, key)
  {
    forall m <- modules ensures NoDuplicates(m.stateEntries) && NoDuplicates(m.providesState) {
      assert NoDuplicates(Keys(m, BuildTime)) && NoDuplicates(Keys(m, Startup));
    }
    if i, j, key: string :| 0 <= i < j < |modules| && Writes(modules[i], key) && Writes(modules[j], key) {
      assert !(key in Keys(modules[i], BuildTime) && key in Keys(modules[j], BuildTime));
      assert !(key in Keys(modules[i], Startup) && key in Keys(modules[j], Startup));
      assert modules[i] in modules && modules[j] in modules;
      UsesBoth(modules, modules[i], modules[j], key);
    } else {
      var m, key :| m in modules && key in m.stateEntries && key in m.providesState;
      UsesBoth(modules, m, m, key);
    }
  }

  lemma UsesBoth(modules: seq<AppModule>, m: AppModule, m': AppModule, key: string)
    requires m in modules && m' in modules
    ensures (key in m.stateEntries && key in m'.providesState) || (key in m'.stateEntries && key in m.providesState) ==>
              Uses(modules, BuildTime, key) && Uses(modules, Startup, key)
  {
    assert Keys(m, BuildTime) == m.stateEntries && Keys(m, Startup) == m.providesState;
    assert Keys(m', BuildTime) == m'.stateEntries && Keys(m', Startup) == m'.providesState;
  }

  /** The declarations are each module's keys, under the module's name. */
  lemma {:induction false} DeclaredByPhase(modules: seq<AppModule>, phase: StatePhase, key: string, name: string)
    ensures (key, name) in PhaseDeclarations(modules, phase) <==>
              exists m <- modules :: m.name == name && key in Keys(m, phase)
  {
    if modules == [] {
    } else {
      var init, m := modules[..|modules| - 1], modules[|modules| - 1];
      assert modules == init + [m];
      DeclaredByPhase(init, phase, key, name);
      if m.name == name && key in Keys(m, phase) {
        var i :| 0 <= i < |Keys(m, phase)| && Keys(m, phase)[i] == key;
        assert Tagged(Keys(m, phase), m.name)[i] == (key, name);
      }
    }
  }

  lemma DeclaredBy(modules: seq<AppModule>, key: string, name: string)
    ensures (key, name) in Declarations(modules) <==> exists m <- modules :: m.name == name && Writes(m, key)
  {
    DeclaredByPhase(modules, BuildTime, key, name);
    DeclaredByPhase(modules, Startup, key, name);
  }

  /** A providers map of the declarations maps each key written to its writer, and no other key. */
  lemma ProvidersAreWriters(modules: seq<AppModule>, providers: map<string, string>)
    requires Provides(providers, Declarations(modules))
    ensures forall m <- modules, key | Writes(m, key) :: key in providers && providers[key] == m.name
    ensures forall key <- providers :: exists m <- modules :: m.name == providers[key] && Writes(m, key)
  {
    forall m <- modules, key | Writes(m, key) ensures key in providers && providers[key] == m.name {
      DeclaredBy(modules, key, m.name);
      assert (key, m.name) in Declarations(modules);
    }
    forall key <- providers ensures exists m <- modules :: m.name == providers[key] && Writes(m, key) {
      DeclaredBy(modules, key, providers[key]);
    }
  }
}
