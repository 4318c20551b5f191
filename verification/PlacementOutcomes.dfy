/** What each call of the placement ends with, and what it does on the way, case by case. */
module PlacementOutcomes {
  import opened Wrappers
  import opened PlacementProtocol
  import opened PlacementSafety

  // ----- the claim -----

  /** A create of a key that names a team is refused. Otherwise another user's entry refuses the call,
      its own user's entry parks it on that very future, and without an entry it makes one and
      goes to the team manager. */
  lemma ClaimDecides(w: World, c: CallId)
    requires Enabled(w, Claim(c))
    ensures var pc, w' := w.calls[c], Apply(w, Claim(c)); var pc' := w'.calls[c];
            if pc.CreateClaim? && pc.team in w.teams then
              pc' == Finished(Raise(Conflict), Unclaimed) && w' == w.(calls := w'.calls)
            else if pc.team in w.inFlight && w.inFlight[pc.team].owner != pc.user then
              pc' == Finished(Raise(Conflict), Unclaimed) && w' == w.(calls := w'.calls)
            else if pc.team in w.inFlight then
              && w' == w.(calls := w'.calls) && pc'.Parked? && pc'.team == pc.team && pc'.user == pc.user
              && pc'.future == w.inFlight[pc.team].future && (pc'.kind == Create <==> pc.CreateClaim?)
            else
              && InManager(pc') && pc'.team == pc.team && pc'.user == pc.user && pc'.future == |w.futures|
              && (if pc.CreateClaim? then pc'.Creating? else pc'.Resuming?)
              && w'.inFlight == w.inFlight[pc.team := Entry(pc.user, |w.futures|)] && w'.teams == w.teams
              && w'.futures == w.futures + [Future(c, if pc.CreateClaim? then Create else Resume, None)]
  {
  }

  /** A resume takes its user from the team as persisted then, or none for an unknown team. */
  lemma LookFindsOwner(w: World, c: CallId)
    requires Enabled(w, Look(c))
    ensures var team := w.calls[c].team;
            Apply(w, Look(c)).calls[c] ==
            ResumeClaim(team, if team in w.teams then w.teams[team].user else "")
  {
  }

  // ----- the manager's work -----

  /** A create persists its team, running, under the user it was asked for. */
  lemma CreatePersists(w: World, c: CallId)
    requires Enabled(w, Persist(c))
    ensures var pc := w.calls[c];
            Apply(w, Persist(c)).teams == w.teams[pc.team := Process(pc.user, Running)]
  {
  }

  /** A resume that returns has found its team stopped, and leaves it running under its user. */
  lemma ResumeRevives(w: World, c: CallId)
    requires Enabled(w, Return(c)) && w.calls[c].Resuming?
    ensures var team := w.calls[c].team;
            && team in w.teams && w.teams[team].status == Stopped
            && Apply(w, Return(c)).teams == w.teams[team := Process(w.teams[team].user, Running)]
  {
  }

  /** Without a key a team is made under an id that was nobody's, and the table stays as it is. */
  lemma AnonymousCreate(w: World, c: CallId, team: TeamId)
    requires Enabled(w, Generate(c, team))
    ensures var w' := Apply(w, Generate(c, team));
            && team !in w.teams && w'.teams == w.teams[team := Process(w.calls[c].user, Running)]
            && w'.inFlight == w.inFlight && w'.calls[c] == Finished(Handle(team, c), Unclaimed)
  {
  }

  // ----- from the manager's end to the call's own -----

  /** The call is past the team manager, and ends with this. */
  predicate EndsWith(w: World, c: CallId, outcome: Outcome) {
    && c in w.calls && (w.calls[c].Resolving? || w.calls[c].Popping? || w.calls[c].Finished?)
    && w.calls[c].outcome == outcome
  }

  lemma EndsStep(w: World, a: Action, c: CallId, outcome: Outcome)
    requires EndsWith(w, c, outcome) && Enabled(w, a)
    ensures EndsWith(Apply(w, a), c, outcome)
  {
    if ActsFor(a, c) { EndsOwn(w, a, c, outcome); } else { CallKept(w, a, c); }
  }

  lemma EndsOwn(w: World, a: Action, c: CallId, outcome: Outcome)
    requires EndsWith(w, c, outcome) && Enabled(w, a) && ActsFor(a, c)
    ensures EndsWith(Apply(w, a), c, outcome)
  {
  }

  lemma {:induction false} EndsRun(ws: seq<World>, steps: seq<Action>, i: nat, j: nat, c: CallId, outcome: Outcome)
    requires IsRun(ws, steps) && i <= j < |ws| && EndsWith(ws[i], c, outcome)
    ensures EndsWith(ws[j], c, outcome)
    decreases j - i
  {
    if i == j {
    } else {
      EndsRun(ws, steps, i, j - 1, c, outcome);
      EndsStep(ws[j - 1], steps[j - 1], c, outcome);
    }
  }

  /** A create that failed, with a key or without, ends in that failure as it is, if it is the
      placement's own or no `Exception`, and otherwise in one of the placement's that wraps it. */
  lemma FailedCreateEnds(ws: seq<World>, steps: seq<Action>, i: nat, j: nat, c: CallId, failure: Failure)
    requires IsRun(ws, steps) && i < j < |ws| && steps[i] == Fail(c, failure)
    requires ws[i].calls[c].Creating? || ws[i].calls[c].CreateAlone?
    ensures var own := failure.Placement? || failure.Base?;
            EndsWith(ws[j], c, Raise(if own then Unchanged(failure) else Wrapped(failure)))
  {
    var seen := Raise(if failure.Placement? || failure.Base? then Unchanged(failure) else Wrapped(failure));
    EndsRun(ws, steps, i + 1, j, c, seen);
  }

  /** A resume that failed ends in that very failure. */
  lemma FailedResumeEnds(ws: seq<World>, steps: seq<Action>, i: nat, j: nat, c: CallId, failure: Failure)
    requires IsRun(ws, steps) && i < j < |ws| && steps[i] == Fail(c, failure) && ws[i].calls[c].Resuming?
    ensures EndsWith(ws[j], c, Raise(Unchanged(failure)))
  {
    EndsRun(ws, steps, i + 1, j, c, Raise(Unchanged(failure)));
  }

  /** A create or a resume whose manager returned ends with a handle of its own on its key. */
  lemma ReturnedEnds(ws: seq<World>, steps: seq<Action>, i: nat, j: nat, c: CallId)
    requires IsRun(ws, steps) && i < j < |ws| && steps[i] == Return(c)
    ensures EndsWith(ws[j], c, Handle(ws[i].calls[c].team, c))
  {
    EndsRun(ws, steps, i + 1, j, c, Handle(ws[i].calls[c].team, c));
  }

  lemma {:induction false} FutureOfCall(ws: seq<World>, steps: seq<Action>, i: nat, j: nat, f: FutureRef)
    requires IsRun(ws, steps) && i <= j < |ws| && f < |ws[i].futures|
    ensures f < |ws[j].futures|
    ensures ws[j].futures[f].claimant == ws[i].futures[f].claimant && ws[j].futures[f].kind == ws[i].futures[f].kind
    decreases j - i
  {
    if i == j {
    } else {
      FutureOfCall(ws, steps, i, j - 1, f);
      FuturesKept(ws[j - 1], steps[j - 1], f);
    }
  }

  /** Everyone answered by a create that failed ends exactly as that create does. */
  lemma FailedCreateShared(ws: seq<World>, steps: seq<Action>, i: nat, j: nat, c: CallId, failure: Failure, d: CallId)
    requires IsRun(ws, steps) && i < j < |ws| && steps[i] == Fail(c, failure) && ws[i].calls[c].Creating?
    requires d in ws[j].calls && ws[j].calls[d].Finished? && ws[j].calls[d].claim.Answered?
    requires ws[j].calls[d].claim.future == ws[i].calls[c].future
    ensures ws[j].calls[d].outcome ==
            Raise(if failure.Placement? || failure.Base? then Unchanged(failure) else Wrapped(failure))
  {
    RunInv(ws, steps, i);
    assert HolderOk(ws[i], c, ws[i].calls[c]);
    FutureOfCall(ws, steps, i, j, ws[i].calls[c].future);
    FailedCreateEnds(ws, steps, i, j, c, failure);
    SharedOutcome(ws, steps, j, d);
  }

  /** A wait that is given up ends in a 503, and only a future that is still unsettled is given up. */
  lemma GivenUpEnds(w: World, c: CallId)
    requires Enabled(w, GiveUp(c))
    ensures w.futures[w.calls[c].future].outcome.None?
    ensures Apply(w, GiveUp(c)).calls[c] == Finished(Raise(GaveUp), Unclaimed)
  {
  }
}
