/** What every interleaving of the placement keeps, and the theorems that follow. */
module PlacementSafety {
  import opened Wrappers
  import opened PlacementProtocol

  // ----- the invariant -----

  /** A call that holds a claim is the claimant of the future its entry names. */
  ghost predicate HolderOk(w: World, c: CallId, pc: Pc) {
    Holds(pc) ==>
      && pc.future < |w.futures|
      && pc.team in w.inFlight && w.inFlight[pc.team] == Entry(pc.user, pc.future)
      && w.futures[pc.future].claimant == c
      && w.futures[pc.future].kind == KindOf(pc)
      && w.futures[pc.future].outcome == (if pc.Popping? then Some(pc.outcome) else None)
      && (pc.Resolving? || pc.Popping? ==> OutcomeOk(pc.kind, pc.outcome))
      && (pc.Creating? || FailedCreate(pc) ==> pc.team !in w.teams)
  }

  /** A create that raised, and has still to settle its future or to pop its entry. */
  predicate FailedCreate(pc: Pc) { (pc.Resolving? || pc.Popping?) && pc.kind == Create && pc.outcome.Raise? }

  function KindOf(pc: Pc): Kind
    requires Holds(pc)
  {
    if pc.Creating? || pc.Persisted? then Create else if pc.Resuming? then Resume else pc.kind
  }

  /** A create never lets a bare `TimeoutError` out. */
  predicate OutcomeOk(kind: Kind, outcome: Outcome) {
    kind == Create ==> Shared(outcome) == outcome
  }

  /** Every entry belongs to a call that still holds it. */
  ghost predicate EntryOk(w: World, team: TeamId, e: Entry) {
    && e.future < |w.futures|
    && var c := w.futures[e.future].claimant;
    && c in w.calls && Holds(w.calls[c]) && w.calls[c].team == team && w.calls[c].future == e.future
  }

  /** A future's claimant has claimed exactly that one, and settles it with its own outcome. */
  ghost predicate FutureOk(w: World, f: FutureRef)
    requires f < |w.futures|
  {
    var c := w.futures[f].claimant;
    && c in w.calls
    && (w.futures[f].outcome.Some? ==>
          && OutcomeOk(w.futures[f].kind, w.futures[f].outcome.value)
          && SettledBy(w.calls[c], f, w.futures[f].outcome.value))
  }

  predicate SettledBy(pc: Pc, f: FutureRef, outcome: Outcome) {
    || (pc.Popping? && pc.future == f && pc.outcome == outcome)
    || (pc.Finished? && pc.claim.Claimed? && pc.claim.future == f && pc.outcome == outcome)
  }

  /** The claim behind future `f` was made on this key by this user. */
  ghost predicate ClaimedFor(w: World, f: FutureRef, team: TeamId, user: UserId) {
    && f < |w.futures|
    && var c := w.futures[f].claimant;
    && c in w.calls
    && (|| (Holds(w.calls[c]) && w.calls[c].team == team && w.calls[c].user == user && w.calls[c].future == f)
        || (w.calls[c].Finished? && w.calls[c].claim == Claimed(team, user, f)))
  }

  /** A waiting or answered call waits on, or was answered by, a claim of its own key and user. */
  ghost predicate WaiterOk(w: World, pc: Pc) {
    && (pc.Parked? ==> ClaimedFor(w, pc.future, pc.team, pc.user))
    && (pc.Finished? && pc.claim.Answered? ==>
          && ClaimedFor(w, pc.claim.future, pc.claim.team, pc.claim.user)
          && w.futures[pc.claim.future].outcome.Some?
          && pc.outcome == Shared(w.futures[pc.claim.future].outcome.value))
  }

  ghost predicate Inv(w: World) {
    && (forall c <- w.calls :: HolderOk(w, c, w.calls[c]) && WaiterOk(w, w.calls[c]))
    && (forall team <- w.inFlight :: EntryOk(w, team, w.inFlight[team]))
    && (forall f | 0 <= f < |w.futures| :: FutureOk(w, f))
  }

  // ----- what a step keeps -----

  /** The call a step is taken for, if any. */
  predicate ActsFor(a: Action, c: CallId) {
    match a
    case SetStatus(_, _) => false
    case Purge(_) => false
    case Start(d, _) => c == d
    case Look(d) => c == d
    case Claim(d) => c == d
    case Persist(d) => c == d
    case Return(d) => c == d
    case Fail(d, _) => c == d
    case Resolve(d) => c == d
    case Pop(d) => c == d
    case Answer(d) => c == d
    case GiveUp(d) => c == d
    case Generate(d, _) => c == d
  }

  /** Two calls never hold one key, nor one future. */
  lemma HoldersApart(w: World, c: CallId, d: CallId)
    requires Inv(w) && c in w.calls && d in w.calls && c != d && Holds(w.calls[c]) && Holds(w.calls[d])
    ensures w.calls[c].team != w.calls[d].team && w.calls[c].future != w.calls[d].future
  {
    assert HolderOk(w, c, w.calls[c]) && HolderOk(w, d, w.calls[d]);
  }

  // Each lemma about a step is split by what the step is taken for, so that each part looks at
  // the few actions that matter to it.

  lemma HolderOwnStep(w: World, a: Action, c: CallId)
    requires Inv(w) && Enabled(w, a) && ActsFor(a, c)
    ensures HolderOk(Apply(w, a), c, Apply(w, a).calls[c])
  {
    match a
    case Claim(_) => HolderClaimStep(w, c);
    case Persist(_) => assert HolderOk(w, c, w.calls[c]); HolderPersistStep(w, c);
    case Return(_) => assert HolderOk(w, c, w.calls[c]); HolderReturnStep(w, c);
    case Fail(_, failure) => assert HolderOk(w, c, w.calls[c]); HolderFailStep(w, c, failure);
    case Resolve(_) => assert HolderOk(w, c, w.calls[c]); HolderResolveStep(w, c);
    case _ =>
  }

  lemma HolderClaimStep(w: World, c: CallId)
    requires Enabled(w, Claim(c))
    ensures HolderOk(Apply(w, Claim(c)), c, Apply(w, Claim(c)).calls[c])
  {
  }

  lemma HolderPersistStep(w: World, c: CallId)
    requires Enabled(w, Persist(c)) && HolderOk(w, c, w.calls[c])
    ensures HolderOk(Apply(w, Persist(c)), c, Apply(w, Persist(c)).calls[c])
  {
  }

  lemma HolderReturnStep(w: World, c: CallId)
    requires Enabled(w, Return(c)) && HolderOk(w, c, w.calls[c])
    ensures HolderOk(Apply(w, Return(c)), c, Apply(w, Return(c)).calls[c])
  {
  }

  lemma HolderFailStep(w: World, c: CallId, failure: Failure)
    requires Enabled(w, Fail(c, failure)) && HolderOk(w, c, w.calls[c])
    ensures HolderOk(Apply(w, Fail(c, failure)), c, Apply(w, Fail(c, failure)).calls[c])
  {
  }

  lemma HolderResolveStep(w: World, c: CallId)
    requires Enabled(w, Resolve(c)) && HolderOk(w, c, w.calls[c])
    ensures HolderOk(Apply(w, Resolve(c)), c, Apply(w, Resolve(c)).calls[c])
  {
  }

  lemma HolderOtherStep(w: World, a: Action, c: CallId)
    requires Inv(w) && Enabled(w, a) && !ActsFor(a, c) && c in w.calls
    ensures HolderOk(Apply(w, a), c, w.calls[c])
  {
    assert HolderOk(w, c, w.calls[c]);
    if Holds(w.calls[c]) && !a.SetStatus? && !a.Purge? && !a.Start? && Holds(w.calls[a.c]) {
      HoldersApart(w, c, a.c);
      assert HolderOk(w, a.c, w.calls[a.c]);
    }
  }

  lemma ClaimedForStep(w: World, a: Action, f: FutureRef, team: TeamId, user: UserId)
    requires Inv(w) && Enabled(w, a) && ClaimedFor(w, f, team, user)
    ensures ClaimedFor(Apply(w, a), f, team, user)
    ensures w.futures[f].outcome.Some? ==> Apply(w, a).futures[f].outcome == w.futures[f].outcome
  {
    var c := w.futures[f].claimant;
    FuturesKept(w, a, f);
    OutcomeKept(w, a, f);
    if ActsFor(a, c) { ClaimKept(w, a, c); } else { CallKept(w, a, c); }
  }

  /** A call keeps its claim through its own steps, and its record of it when it is done. */
  lemma ClaimKept(w: World, a: Action, c: CallId)
    requires Enabled(w, a) && ActsFor(a, c) && c in w.calls
    ensures c in Apply(w, a).calls
    ensures Holds(w.calls[c]) ==>
              var pc, pc' := w.calls[c], Apply(w, a).calls[c];
              if a.Pop? then pc' == Finished(pc.outcome, Claimed(pc.team, pc.user, pc.future))
              else Holds(pc') && pc'.team == pc.team && pc'.user == pc.user && pc'.future == pc.future
    ensures !w.calls[c].Finished?
  {
  }

  /** A settled future stays settled as it was. */
  lemma OutcomeKept(w: World, a: Action, f: FutureRef)
    requires Inv(w) && Enabled(w, a) && f < |w.futures|
    ensures w.futures[f].outcome.Some? ==> Apply(w, a).futures[f].outcome == w.futures[f].outcome
    ensures !a.Resolve? ==> Apply(w, a).futures[f].outcome == w.futures[f].outcome
  {
    FuturesKept(w, a, f);
    if a.Resolve? { assert HolderOk(w, a.c, w.calls[a.c]); }
  }

  lemma WaiterOwnStep(w: World, a: Action, c: CallId)
    requires Inv(w) && Enabled(w, a) && ActsFor(a, c)
    ensures WaiterOk(Apply(w, a), Apply(w, a).calls[c])
  {
    if c in w.calls {
      assert WaiterOk(w, w.calls[c]);
      if a.Claim? && w.calls[c].team in w.inFlight {
        var e := w.inFlight[w.calls[c].team];
        assert EntryOk(w, w.calls[c].team, e);
        var d := w.futures[e.future].claimant;
        assert HolderOk(w, d, w.calls[d]);
        assert e.owner == w.calls[c].user ==> ClaimedFor(w, e.future, w.calls[c].team, w.calls[c].user);
        if e.owner == w.calls[c].user { ClaimedForStep(w, a, e.future, w.calls[c].team, w.calls[c].user); }
      } else if a.Answer? {
        ClaimedForStep(w, a, w.calls[c].future, w.calls[c].team, w.calls[c].user);
      }
    }
  }

  lemma WaiterOtherStep(w: World, a: Action, c: CallId)
    requires Inv(w) && Enabled(w, a) && !ActsFor(a, c) && c in w.calls
    ensures WaiterOk(Apply(w, a), w.calls[c])
  {
    assert WaiterOk(w, w.calls[c]);
    var pc := w.calls[c];
    if pc.Parked? {
      ClaimedForStep(w, a, pc.future, pc.team, pc.user);
    } else if pc.Finished? && pc.claim.Answered? {
      ClaimedForStep(w, a, pc.claim.future, pc.claim.team, pc.claim.user);
    }
  }

  lemma EntryStep(w: World, a: Action, team: TeamId)
    requires Inv(w) && Enabled(w, a) && team in Apply(w, a).inFlight
    ensures EntryOk(Apply(w, a), team, Apply(w, a).inFlight[team])
  {
    if team in w.inFlight {
      assert EntryOk(w, team, w.inFlight[team]);
      var c := w.futures[w.inFlight[team].future].claimant;
      if ActsFor(a, c) { EntryOwn(w, a, team, c); } else { EntryKept(w, a, team, c); }
    } else {
      OnlyClaimsEnter(w, a, team);
      EntryClaimed(w, a.c, team);
    }
  }

  lemma OnlyClaimsEnter(w: World, a: Action, team: TeamId)
    requires Enabled(w, a) && team !in w.inFlight && team in Apply(w, a).inFlight
    ensures a.Claim?
  {
  }

  lemma EntryClaimed(w: World, c: CallId, team: TeamId)
    requires Enabled(w, Claim(c)) && team !in w.inFlight && team in Apply(w, Claim(c)).inFlight
    ensures EntryOk(Apply(w, Claim(c)), team, Apply(w, Claim(c)).inFlight[team])
  {
  }

  lemma EntryOwn(w: World, a: Action, team: TeamId, c: CallId)
    requires Enabled(w, a) && team in w.inFlight && team in Apply(w, a).inFlight && ActsFor(a, c)
    requires EntryOk(w, team, w.inFlight[team]) && w.futures[w.inFlight[team].future].claimant == c
    ensures EntryOk(Apply(w, a), team, Apply(w, a).inFlight[team])
  {
    FuturesKept(w, a, w.inFlight[team].future);
    EntrySame(w, a, team);
    ClaimKept(w, a, c);
  }

  lemma EntryKept(w: World, a: Action, team: TeamId, c: CallId)
    requires Enabled(w, a) && team in w.inFlight && team in Apply(w, a).inFlight && !ActsFor(a, c)
    requires EntryOk(w, team, w.inFlight[team]) && w.futures[w.inFlight[team].future].claimant == c
    ensures EntryOk(Apply(w, a), team, Apply(w, a).inFlight[team])
  {
    FuturesKept(w, a, w.inFlight[team].future);
    CallKept(w, a, c);
    EntrySame(w, a, team);
  }

  /** A future stays the same call's, and of the same kind. */
  lemma FuturesKept(w: World, a: Action, f: FutureRef)
    requires Enabled(w, a) && f < |w.futures|
    ensures f < |Apply(w, a).futures|
    ensures Apply(w, a).futures[f].claimant == w.futures[f].claimant && Apply(w, a).futures[f].kind == w.futures[f].kind
  {
  }

  lemma CallKept(w: World, a: Action, c: CallId)
    requires Enabled(w, a) && !ActsFor(a, c) && c in w.calls
    ensures c in Apply(w, a).calls && Apply(w, a).calls[c] == w.calls[c]
  {
  }

  /** No entry is ever overwritten. */
  lemma EntrySame(w: World, a: Action, team: TeamId)
    requires Enabled(w, a) && team in w.inFlight && team in Apply(w, a).inFlight
    ensures Apply(w, a).inFlight[team] == w.inFlight[team]
  {
  }

  lemma FutureStep(w: World, a: Action, f: FutureRef)
    requires Inv(w) && Enabled(w, a) && f < |Apply(w, a).futures|
    ensures FutureOk(Apply(w, a), f)
  {
    if f >= |w.futures| {
      OnlyClaimsAdd(w, a, f);
      FutureClaimed(w, a.c, f);
    } else {
      assert FutureOk(w, f);
      FuturesKept(w, a, f);
      var c := w.futures[f].claimant;
      if ActsFor(a, c) { ClaimKept(w, a, c); } else { CallKept(w, a, c); }
      if w.futures[f].outcome.Some? {
        OutcomeKept(w, a, f);
      } else if a.Resolve? {
        assert HolderOk(w, a.c, w.calls[a.c]);
        FutureResolved(w, a.c, f);
      } else {
        OutcomeKept(w, a, f);
      }
    }
  }

  lemma OnlyClaimsAdd(w: World, a: Action, f: FutureRef)
    requires Enabled(w, a) && |w.futures| <= f < |Apply(w, a).futures|
    ensures a.Claim?
  {
  }

  lemma FutureClaimed(w: World, c: CallId, f: FutureRef)
    requires Enabled(w, Claim(c)) && |w.futures| <= f < |Apply(w, Claim(c)).futures|
    ensures FutureOk(Apply(w, Claim(c)), f)
  {
  }

  lemma FutureResolved(w: World, c: CallId, f: FutureRef)
    requires Enabled(w, Resolve(c)) && HolderOk(w, c, w.calls[c])
    requires f < |w.futures| && w.futures[f].claimant in w.calls && w.futures[f].outcome.None?
    ensures FutureOk(Apply(w, Resolve(c)), f)
  {
  }

  lemma InvStep(w: World, a: Action)
    requires Inv(w) && Enabled(w, a)
    ensures Inv(Apply(w, a))
  {
    var w' := Apply(w, a);
    forall c <- w'.calls ensures HolderOk(w', c, w'.calls[c]) && WaiterOk(w', w'.calls[c]) {
      if ActsFor(a, c) { HolderOwnStep(w, a, c); WaiterOwnStep(w, a, c); }
      else { HolderOtherStep(w, a, c); WaiterOtherStep(w, a, c); }
    }
    forall team <- w'.inFlight ensures EntryOk(w', team, w'.inFlight[team]) { EntryStep(w, a, team); }
    forall f | 0 <= f < |w'.futures| ensures FutureOk(w', f) { FutureStep(w, a, f); }
  }

  lemma {:induction false} RunInv(ws: seq<World>, steps: seq<Action>, i: nat)
    requires IsRun(ws, steps) && i < |ws|
    ensures Inv(ws[i])
  {
    if i == 0 {
    } else {
      RunInv(ws, steps, i - 1);
      InvStep(ws[i - 1], steps[i - 1]);
    }
  }

  // ----- theorems about whole runs -----

  /** One operation per key: no two calls, creates or resumes, are ever both inside the team
      manager for one key, nor both between claiming it and releasing it. */
  lemma OneOperationPerKey(ws: seq<World>, steps: seq<Action>, i: nat, c: CallId, d: CallId)
    requires IsRun(ws, steps) && i < |ws| && c in ws[i].calls && d in ws[i].calls
    requires Holds(ws[i].calls[c]) && Holds(ws[i].calls[d]) && ws[i].calls[c].team == ws[i].calls[d].team
    ensures c == d
  {
    RunInv(ws, steps, i);
    assert HolderOk(ws[i], c, ws[i].calls[c]) && HolderOk(ws[i], d, ws[i].calls[d]);
  }

  /** The manager's create runs only for a key that names no team, from the claim to the very
      moment it persists one. */
  lemma CreateOnlyUnknown(ws: seq<World>, steps: seq<Action>, i: nat, c: CallId)
    requires IsRun(ws, steps) && i < |ws| && c in ws[i].calls && ws[i].calls[c].Creating?
    ensures ws[i].calls[c].team !in ws[i].teams
  {
    RunInv(ws, steps, i);
    assert HolderOk(ws[i], c, ws[i].calls[c]);
  }

  /** Shared outcome: a parked call that was answered ends exactly as its claimant did, and
      the claim was made on the same key by the same user. The one exception is a resume that
      raised `TimeoutError`, which the parked calls see as a 503. */
  lemma SharedOutcome(ws: seq<World>, steps: seq<Action>, i: nat, c: CallId)
    requires IsRun(ws, steps) && i < |ws| && c in ws[i].calls
    requires ws[i].calls[c].Finished? && ws[i].calls[c].claim.Answered?
    ensures var w := ws[i]; var pc := w.calls[c]; var f := pc.claim.future;
      && f < |w.futures| && w.futures[f].claimant in w.calls
      && var d := w.calls[w.futures[f].claimant];
      && (d.Popping? || d.Finished?) && w.futures[f].outcome == Some(d.outcome)
      && (if && w.futures[f].kind == Resume && d.outcome.Raise?
             && d.outcome.error.Unchanged? && d.outcome.error.failure.Timeout?
          then pc.outcome == Raise(GaveUp) else pc.outcome == d.outcome)
      && (d.Popping? ==> d.team == pc.claim.team && d.user == pc.claim.user)
      && (d.Finished? ==> d.claim == Claimed(pc.claim.team, pc.claim.user, f))
  {
    RunInv(ws, steps, i);
    var w := ws[i];
    assert WaiterOk(w, w.calls[c]);
    assert FutureOk(w, w.calls[c].claim.future);
  }

  /** An entry leaves the table, or is replaced, only by its own claimant's pop, with its
      future already settled. */
  lemma PoppedByItsClaimant(ws: seq<World>, steps: seq<Action>, i: nat, team: TeamId)
    requires IsRun(ws, steps) && i < |steps| && team in ws[i].inFlight
    requires team !in ws[i + 1].inFlight || ws[i + 1].inFlight[team] != ws[i].inFlight[team]
    ensures ws[i].inFlight[team].future < |ws[i].futures|
    ensures var f := ws[i].futures[ws[i].inFlight[team].future];
      steps[i] == Pop(f.claimant) && f.outcome.Some?
  {
    RunInv(ws, steps, i);
    var w := ws[i];
    assert EntryOk(w, team, w.inFlight[team]);
    if steps[i].Pop? {
      var c := steps[i].c;
      assert HolderOk(w, c, w.calls[c]);
    }
  }

  /** No leaked claims: the table's keys are exactly those of the calls between their claim
      and their pop, so it is empty when no call is active. */
  lemma TableIsHolders(ws: seq<World>, steps: seq<Action>, i: nat)
    requires IsRun(ws, steps) && i < |ws|
    ensures ws[i].inFlight.Keys == set c <- ws[i].calls | Holds(ws[i].calls[c]) :: ws[i].calls[c].team
    ensures (forall c <- ws[i].calls :: ws[i].calls[c].Finished?) ==> ws[i].inFlight == map[]
  {
    RunInv(ws, steps, i);
    var w := ws[i];
    var held := set c <- w.calls | Holds(w.calls[c]) :: w.calls[c].team;
    forall team <- w.inFlight ensures team in held { assert EntryOk(w, team, w.inFlight[team]); }
    forall team <- held ensures team in w.inFlight {
      var c :| c in w.calls && Holds(w.calls[c]) && w.calls[c].team == team;
      assert HolderOk(w, c, w.calls[c]);
    }
    assert w.inFlight.Keys == held;
    if forall c <- w.calls :: w.calls[c].Finished? { assert held == {}; }
  }

  // ----- a create and a resume on one key -----

  /** What the placement's comment counts on: a resume claims only a team that exists, and no
      team is purged while a resume of it is in the table. */
  ghost predicate Known(w: World, a: Action)
    requires Enabled(w, a)
  {
    && (a.Claim? && w.calls[a.c].ResumeClaim? && w.calls[a.c].team !in w.inFlight ==> w.calls[a.c].team in w.teams)
    && (a.Purge? && a.team in w.inFlight ==> !ResumeEntry(w, a.team))
  }

  ghost predicate ResumeEntry(w: World, team: TeamId)
    requires team in w.inFlight
  {
    var f := w.inFlight[team].future;
    f < |w.futures| && w.futures[f].kind == Resume
  }

  ghost predicate IsKnownRun(ws: seq<World>, steps: seq<Action>) {
    IsRun(ws, steps) && forall i | 0 <= i < |steps| :: Known(ws[i], steps[i])
  }

  /** Teams with a resume in the table exist, and no create waits on a resume's future. */
  ghost predicate Separate(w: World) {
    && (forall team <- w.inFlight :: ResumeEntry(w, team) ==> team in w.teams)
    && (forall c <- w.calls :: CreateWaitOk(w, w.calls[c]))
  }

  ghost predicate CreateWaitOk(w: World, pc: Pc) {
    pc.Parked? && pc.kind == Create ==> pc.future < |w.futures| && w.futures[pc.future].kind == Create
  }

  lemma SeparateStep(w: World, a: Action)
    requires Inv(w) && Separate(w) && Enabled(w, a) && Known(w, a)
    ensures Separate(Apply(w, a))
  {
    var w' := Apply(w, a);
    forall team <- w'.inFlight | ResumeEntry(w', team) ensures team in w'.teams { ResumeKnownStep(w, a, team); }
    forall c <- w'.calls ensures CreateWaitOk(w', w'.calls[c]) { CreateWaitStep(w, a, c); }
  }

  lemma ResumeKnownStep(w: World, a: Action, team: TeamId)
    requires Inv(w) && Separate(w) && Enabled(w, a) && Known(w, a)
    requires team in Apply(w, a).inFlight && ResumeEntry(Apply(w, a), team)
    ensures team in Apply(w, a).teams
  {
    if team in w.inFlight {
      assert EntryOk(w, team, w.inFlight[team]);
      FuturesKept(w, a, w.inFlight[team].future);
      EntrySame(w, a, team);
      assert ResumeEntry(w, team);
      TeamKept(w, a, team);
    } else {
      OnlyClaimsEnter(w, a, team);
      ResumeClaimed(w, a.c, team);
    }
  }

  /** Only a purge makes a team unknown. */
  lemma TeamKept(w: World, a: Action, team: TeamId)
    requires Enabled(w, a) && team in w.teams && a != Purge(team)
    ensures team in Apply(w, a).teams
  {
  }

  lemma ResumeClaimed(w: World, c: CallId, team: TeamId)
    requires Enabled(w, Claim(c)) && Known(w, Claim(c)) && team !in w.inFlight
    requires team in Apply(w, Claim(c)).inFlight && ResumeEntry(Apply(w, Claim(c)), team)
    ensures team in Apply(w, Claim(c)).teams
  {
  }

  lemma CreateWaitStep(w: World, a: Action, c: CallId)
    requires Inv(w) && Separate(w) && Enabled(w, a) && c in Apply(w, a).calls
    ensures CreateWaitOk(Apply(w, a), Apply(w, a).calls[c])
  {
    if a == Claim(c) {
      CreateWaitClaim(w, c);
    } else if ActsFor(a, c) {
      NothingElseParks(w, a, c);
    } else {
      CallBefore(w, a, c);
      assert CreateWaitOk(w, w.calls[c]);
      if w.calls[c].Parked? && w.calls[c].kind == Create { FuturesKept(w, a, w.calls[c].future); }
      CallKept(w, a, c);
    }
  }

  lemma CreateWaitClaim(w: World, c: CallId)
    requires Inv(w) && Separate(w) && Enabled(w, Claim(c))
    ensures CreateWaitOk(Apply(w, Claim(c)), Apply(w, Claim(c)).calls[c])
  {
    if w.calls[c].team in w.inFlight { assert EntryOk(w, w.calls[c].team, w.inFlight[w.calls[c].team]); }
  }

  lemma NothingElseParks(w: World, a: Action, c: CallId)
    requires Enabled(w, a) && ActsFor(a, c) && a != Claim(c)
    ensures c in Apply(w, a).calls && !Apply(w, a).calls[c].Parked?
  {
  }

  lemma CallBefore(w: World, a: Action, c: CallId)
    requires Enabled(w, a) && !ActsFor(a, c) && c in Apply(w, a).calls
    ensures c in w.calls
  {
  }

  /** Given that, a create never waits on a resume's future, in any run. */
  lemma {:induction false} CreateNeverAwaitsResume(ws: seq<World>, steps: seq<Action>, i: nat)
    requires IsKnownRun(ws, steps) && i < |ws|
    ensures Separate(ws[i])
  {
    if i == 0 {
    } else {
      CreateNeverAwaitsResume(ws, steps, i - 1);
      RunInv(ws, steps, i - 1);
      SeparateStep(ws[i - 1], steps[i - 1]);
    }
  }

  /** Exactly when a create does park on a resume: the resume's team is gone and was, as far
      as the resume knew, this user's. */
  lemma CreateAwaitsResumeIff(ws: seq<World>, steps: seq<Action>, i: nat, c: CallId)
    requires IsRun(ws, steps) && i < |steps| && steps[i] == Claim(c) && ws[i].calls[c].CreateClaim?
    ensures var w, pc, pc' := ws[i], ws[i].calls[c], ws[i + 1].calls[c];
      (pc'.Parked? && pc'.future < |w.futures| && w.futures[pc'.future].kind == Resume) <==>
      (pc.team !in w.teams && pc.team in w.inFlight && ResumeEntry(w, pc.team) && w.inFlight[pc.team].owner == pc.user)
  {
  }

  /** The create holds its claim past the point where it can fail: it has persisted its team, and
      will end, or has ended, with a handle. */
  predicate CreateSucceeded(pc: Pc) {
    pc.Persisted? || ((pc.Resolving? || pc.Popping?) && pc.kind == Create && pc.outcome.Handle?)
  }

  /** A create of this key, by this user, is between its claim and its pop. */
  ghost predicate CreateHolds(w: World, d: CallId, team: TeamId, user: UserId) {
    && d in w.calls && Holds(w.calls[d]) && KindOf(w.calls[d]) == Create
    && w.calls[d].team == team && w.calls[d].user == user
  }

  /** Exactly when a resume parks on a create: a create of the same key, for the user the resume
      found, holds its claim. If the team exists, as the comment argues it does, that create has
      already succeeded and has only its future to settle or its entry to pop. */
  lemma ResumeAwaitsCreateIff(ws: seq<World>, steps: seq<Action>, i: nat, c: CallId)
    requires IsRun(ws, steps) && i < |steps| && steps[i] == Claim(c) && ws[i].calls[c].ResumeClaim?
    ensures var w, pc, pc' := ws[i], ws[i].calls[c], ws[i + 1].calls[c];
            (pc'.Parked? && pc'.future < |w.futures| && w.futures[pc'.future].kind == Create) <==>
            exists d :: CreateHolds(w, d, pc.team, pc.user)
    ensures var w, pc := ws[i], ws[i].calls[c];
            pc.team in w.teams ==> forall d :: CreateHolds(w, d, pc.team, pc.user) ==> CreateSucceeded(w.calls[d])
  {
    RunInv(ws, steps, i);
    var w, pc := ws[i], ws[i].calls[c];
    ParkedOnEntry(w, c);
    forall d | CreateHolds(w, d, pc.team, pc.user)
      ensures EntryOfCreate(w, pc.team, pc.user) && (pc.team in w.teams ==> CreateSucceeded(w.calls[d]))
    {
      CreateHasEntry(w, d, pc.team, pc.user);
    }
    if EntryOfCreate(w, pc.team, pc.user) { var d := EntryHasCreate(w, pc.team, pc.user); }
  }

  /** The key's entry is a create's, for this user. */
  ghost predicate EntryOfCreate(w: World, team: TeamId, user: UserId) {
    && team in w.inFlight && w.inFlight[team].owner == user
    && w.inFlight[team].future < |w.futures| && w.futures[w.inFlight[team].future].kind == Create
  }

  lemma CreateHasEntry(w: World, d: CallId, team: TeamId, user: UserId)
    requires Inv(w) && CreateHolds(w, d, team, user)
    ensures EntryOfCreate(w, team, user) && (team in w.teams ==> CreateSucceeded(w.calls[d]))
  {
    assert HolderOk(w, d, w.calls[d]);
  }

  lemma EntryHasCreate(w: World, team: TeamId, user: UserId) returns (d: CallId)
    requires Inv(w) && EntryOfCreate(w, team, user)
    ensures CreateHolds(w, d, team, user)
  {
    assert EntryOk(w, team, w.inFlight[team]);
    d := w.futures[w.inFlight[team].future].claimant;
    assert HolderOk(w, d, w.calls[d]);
  }

  lemma ParkedOnEntry(w: World, c: CallId)
    requires Enabled(w, Claim(c)) && w.calls[c].ResumeClaim?
    ensures var pc, pc' := w.calls[c], Apply(w, Claim(c)).calls[c];
            if pc.team in w.inFlight && w.inFlight[pc.team].owner == pc.user
            then pc' == Parked(pc.team, pc.user, w.inFlight[pc.team].future, Resume) else !pc'.Parked?
  {
  }
}
