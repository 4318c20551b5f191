/** Runs that bring a create and a resume of one key together, each way round. */
module PlacementTraces {
  import opened Wrappers
  import opened PlacementProtocol
  import opened PlacementSafety

  /** Reached by a run; `known` when every resume in it was for a team that stayed. */
  ghost predicate Reached(w: World, known: bool) {
    exists ws, steps :: IsRun(ws, steps) && (known ==> IsKnownRun(ws, steps)) && ws[|steps|] == w
  }

  lemma Begin(known: bool)
    ensures Reached(INITIAL, known)
  {
    assert IsRun([INITIAL], []) && IsKnownRun([INITIAL], []);
  }

  lemma Go(w: World, known: bool, a: Action, w': World)
    requires Reached(w, known) && Enabled(w, a) && (known ==> Known(w, a)) && Apply(w, a) == w'
    ensures Reached(w', known)
  {
    var ws, steps :| IsRun(ws, steps) && (known ==> IsKnownRun(ws, steps)) && ws[|steps|] == w;
    var ws', steps' := ws + [w'], steps + [a];
    assert IsRun(ws', steps') && ws'[|steps'|] == w';
    assert known ==> IsKnownRun(ws', steps');
  }

  const ALICE := "alice"

  lemma CreatePersisted()
    ensures Reached(World(map[9 := Process(ALICE, Stopped)], map[9 := Entry(ALICE, 0)],
                          [Future(0, Create, None)], map[0 := Persisted(9, ALICE, 0)]), true)
  {
    Begin(true);
    var w1 := Goto(INITIAL, 0, CreateClaim(9, ALICE));
    Go(INITIAL, true, Start(0, CreateClaim(9, ALICE)), w1);
    var w2 := World(map[], map[9 := Entry(ALICE, 0)], [Future(0, Create, None)], map[0 := Creating(9, ALICE, 0)]);
    Go(w1, true, Claim(0), w2);
    CreateThenStop(w2);
  }

  lemma CreateThenStop(w: World)
    requires w == World(map[], map[9 := Entry(ALICE, 0)], [Future(0, Create, None)], map[0 := Creating(9, ALICE, 0)])
    requires Reached(w, true)
    ensures Reached(World(map[9 := Process(ALICE, Stopped)], w.inFlight, w.futures,
                          map[0 := Persisted(9, ALICE, 0)]), true)
  {
    var w' := World(map[9 := Process(ALICE, Running)], w.inFlight, w.futures, map[0 := Persisted(9, ALICE, 0)]);
    Go(w, true, Persist(0), w');
    Go(w', true, SetStatus(9, Stopped), w'.(teams := map[9 := Process(ALICE, Stopped)]));
  }

  /** The other way round is reachable even so: once a create has persisted its team, and
      before it pops its entry, a resume of that team, stopped meanwhile, parks on the
      create's future. */
  lemma ResumeMayAwaitCreate()
    ensures exists w, c :: Reached(w, true) && c in w.calls && w.calls[c].Parked? && w.calls[c].kind == Resume
              && w.calls[c].future < |w.futures| && w.futures[w.calls[c].future].kind == Create
              && w.calls[c].team in w.teams && w.teams[w.calls[c].team].status == Stopped
  {
    CreatePersisted();
    var w0 := World(map[9 := Process(ALICE, Stopped)], map[9 := Entry(ALICE, 0)],
                    [Future(0, Create, None)], map[0 := Persisted(9, ALICE, 0)]);
    var w1 := Goto(w0, 1, ResumeLook(9));
    Go(w0, true, Start(1, ResumeLook(9)), w1);
    var w2 := Goto(w1, 1, ResumeClaim(9, ALICE));
    Go(w1, true, Look(1), w2);
    var w3 := Goto(w2, 1, Parked(9, ALICE, 0, Resume));
    Go(w2, true, Claim(1), w3);
    assert w3.calls[1] == Parked(9, ALICE, 0, Resume);
  }

  lemma ResumeHeld()
    ensures Reached(World(map[9 := Process(ALICE, Stopped)], map[9 := Entry(ALICE, 0)], [Future(1, Resume, None)],
                          map[0 := Finished(Handle(9, 0), Unclaimed), 1 := Resuming(9, ALICE, 0)]), false)
  {
    Begin(false);
    var w1 := Goto(INITIAL, 0, CreateAlone(ALICE));
    Go(INITIAL, false, Start(0, CreateAlone(ALICE)), w1);
    var w2 := World(map[9 := Process(ALICE, Running)], map[], [], map[0 := Finished(Handle(9, 0), Unclaimed)]);
    Go(w1, false, Generate(0, 9), w2);
    var w3 := w2.(teams := map[9 := Process(ALICE, Stopped)]);
    Go(w2, false, SetStatus(9, Stopped), w3);
    ResumeClaimed(w3);
  }

  lemma ResumeClaimed(w: World)
    requires w == World(map[9 := Process(ALICE, Stopped)], map[], [], map[0 := Finished(Handle(9, 0), Unclaimed)])
    requires Reached(w, false)
    ensures Reached(World(w.teams, map[9 := Entry(ALICE, 0)], [Future(1, Resume, None)],
                          w.calls[1 := Resuming(9, ALICE, 0)]), false)
  {
    var w1 := Goto(w, 1, ResumeLook(9));
    Go(w, false, Start(1, ResumeLook(9)), w1);
    var w2 := Goto(w1, 1, ResumeClaim(9, ALICE));
    Go(w1, false, Look(1), w2);
    Go(w2, false, Claim(1), World(w.teams, map[9 := Entry(ALICE, 0)], [Future(1, Resume, None)],
                                  w.calls[1 := Resuming(9, ALICE, 0)]));
  }

  /** Without the assumption a create does wait on a resume: its team was purged meanwhile. */
  lemma CreateMayAwaitResume()
    ensures exists w, c :: Reached(w, false) && c in w.calls && w.calls[c].Parked? && w.calls[c].kind == Create
              && w.calls[c].future < |w.futures| && w.futures[w.calls[c].future].kind == Resume
  {
    ResumeHeld();
    var w0 := World(map[9 := Process(ALICE, Stopped)], map[9 := Entry(ALICE, 0)], [Future(1, Resume, None)],
                    map[0 := Finished(Handle(9, 0), Unclaimed), 1 := Resuming(9, ALICE, 0)]);
    var w1 := w0.(teams := map[]);
    Go(w0, false, Purge(9), w1);
    var w2 := Goto(w1, 2, CreateClaim(9, ALICE));
    Go(w1, false, Start(2, CreateClaim(9, ALICE)), w2);
    var w3 := Goto(w2, 2, Parked(9, ALICE, 0, Create));
    Go(w2, false, Claim(2), w3);
    assert w3.calls[2] == Parked(9, ALICE, 0, Create);
  }
}
