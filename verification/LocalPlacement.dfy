/**
 The placement in its own form: one object whose two operations update its
 in-flight table and settle futures. `Others` stands for every other call, and
 every other user of the team manager, at work between two steps of this one; its
 callers learn only what PlacementSafety proves of all of them: the entry of a
 held claim stays and its future is left for its claimant to settle, a settled
 future stays settled, and a team under creation is persisted by nobody else.
 */
module LocalPlacement {
  import opened Wrappers
  import opened PlacementProtocol

  class Promise {
    var outcome: Option<Outcome>
    constructor () ensures outcome == None { outcome := None; }
  }

  /** How one run of the team manager is to end, as far as it depends on the manager. */
  datatype Ending = Built | Failed(failure: Failure)

  /** One run of the team manager, and how it did end. */
  datatype Run = Run(kind: Kind, team: TeamId, ending: Ending)

  /** What a create ends with, its failures as callers see them. */
  function CreateOutcome(me: CallId, team: TeamId, ending: Ending): Outcome {
    if ending.Built? then Handle(team, me) else Raise(CreateError(ending.failure))
  }

  predicate IsTimeout(r: Outcome) { r.Raise? && r.error.Unchanged? && r.error.failure.Timeout? }

  class LocalPlacement {
    var teams: map<TeamId, Process>
    var inFlight: map<TeamId, (UserId, Promise)>
    ghost var runs: map<CallId, seq<Run>>

    constructor (teams: map<TeamId, Process>)
      ensures this.teams == teams && inFlight == map[] && runs == map[]
    {
      this.teams, inFlight, runs := teams, map[], map[];
    }

    ghost predicate Held(team: TeamId, mine: Promise)
      reads this
    {
      team in inFlight && inFlight[team].1 == mine
    }

    /** The runs of the manager on behalf of one call of the placement. */
    ghost function RunsOf(me: CallId): seq<Run>
      reads this
    {
      if me in runs then runs[me] else []
    }

    /** What a parked call, or a refused one, may end with. */
    ghost predicate Joined(owner: UserId, user: UserId, future: Promise, r: Outcome)
      reads future
    {
      if owner != user then r == Raise(Conflict)
      else
        || r == Raise(GaveUp)
        || (future.outcome.Some? && r == future.outcome.value && !IsTimeout(r))
    }

    // ----- everyone else -----

    /** Others while this call holds `team`'s entry. */
    method OthersHeld(ghost me: CallId, team: TeamId, ghost mine: Promise)
      requires Held(team, mine)
      modifies this, (set e <- inFlight.Values :: e.1) - {mine}
      ensures Held(team, mine) && inFlight[team] == old(inFlight[team]) && RunsOf(me) == old(RunsOf(me))
      ensures team !in old(teams) ==> team !in teams
      ensures forall e <- inFlight.Values :: e in old(inFlight.Values) || fresh(e.1)
    {
    }

    /** Others while this call holds nothing; a claim they make brings a future of its own. */
    method Others(ghost me: CallId)
      modifies this, set e <- inFlight.Values :: e.1
      ensures RunsOf(me) == old(RunsOf(me))
      ensures forall e <- inFlight.Values :: e in old(inFlight.Values) || fresh(e.1)
      ensures forall e <- old(inFlight.Values) | old(e.1.outcome).Some? :: e.1.outcome == old(e.1.outcome)
    {
    }

    // ----- the team manager -----

    /** Persists the team only if it does not fail. */
    method ManagerCreate(me: CallId, team: TeamId, user: UserId, ending: Ending)
      requires team !in teams
      modifies this`teams, this`runs
      ensures RunsOf(me) == old(RunsOf(me)) + [Run(Create, team, ending)]
      ensures teams == if ending.Built? then old(teams)[team := Process(user, Running)] else old(teams)
    {
      if ending.Built? { teams := teams[team := Process(user, Running)]; }
      runs := runs[me := RunsOf(me) + [Run(Create, team, ending)]];
    }

    /** Succeeds on a stopped team only; any other it refuses. */
    method ManagerResume(me: CallId, team: TeamId, ending: Ending, refusal: Failure) returns (ended: Ending)
      modifies this`teams, this`runs
      ensures RunsOf(me) == old(RunsOf(me)) + [Run(Resume, team, ended)]
      ensures ended == if ending.Failed? || (team in old(teams) && old(teams)[team].status == Stopped) then ending
                else Failed(refusal)
      ensures teams == if ended.Built? then old(teams)[team := old(teams)[team].(status := Running)] else old(teams)
    {
      ended := ending;
      if ending.Built? {
        if team in teams && teams[team].status == Stopped {
          teams := teams[team := teams[team].(status := Running)];
        } else {
          ended := Failed(refusal);
        }
      }
      runs := runs[me := RunsOf(me) + [Run(Resume, team, ended)]];
    }

    // ----- the table -----

    /** Wait for the claim's future, or give up on it; another user's claim is refused. */
    method Park(ghost me: CallId, user: UserId, owner: UserId, future: Promise) returns (r: Outcome)
      requires (owner, future) in inFlight.Values
      modifies this, set e <- inFlight.Values :: e.1
      ensures Joined(owner, user, future, r) && RunsOf(me) == old(RunsOf(me))
      ensures owner != user ==> unchanged(this) && unchanged(future)
    {
      if owner != user { return Raise(Conflict); }
      Others(me);
      if future.outcome.None? { return Raise(GaveUp); }
      r := Shared(future.outcome.value);
    }

    /** An entry leaves the table with its future settled. */
    method Pop(team: TeamId, ghost future: Promise)
      requires Held(team, future) && future.outcome.Some?
      modifies this`inFlight
      ensures inFlight == old(inFlight) - {team}
    {
      inFlight := inFlight - {team};
    }

    /** Settle the future of a held claim, then pop the entry. */
    method Settle(ghost me: CallId, team: TeamId, future: Promise, r: Outcome)
      requires Held(team, future)
      modifies this, set e <- inFlight.Values :: e.1
      ensures future.outcome == Some(r) && team !in inFlight && RunsOf(me) == old(RunsOf(me))
    {
      assert inFlight[team] in inFlight.Values;
      future.outcome := Some(r);
      OthersHeld(me, team, future);
      Pop(team, future);
    }

    /** A creation with a key: one that names a team is refused, and one in flight is shared with its
        own user alone; neither runs the manager. Any other key is claimed, the manager runs once for
        it, and what this call ends with is what its future gives to those parked on it. */
    method CreateKeyed(me: CallId, team: TeamId, user: UserId, ending: Ending) returns (r: Outcome, future: Promise)
      modifies this, set e <- inFlight.Values :: e.1
      ensures team in old(teams) ==> r == Raise(Conflict) && unchanged(this)
      ensures team !in old(teams) && team in old(inFlight) ==>
                && future == old(inFlight[team]).1
                && Joined(old(inFlight[team]).0, user, future, r)
                && RunsOf(me) == old(RunsOf(me))
                && (user != old(inFlight[team]).0 ==> unchanged(this))
      ensures team !in old(teams) && team !in old(inFlight) ==>
                && fresh(future) && future.outcome == Some(r) && team !in inFlight
                && RunsOf(me) == old(RunsOf(me)) + [Run(Create, team, ending)]
                && (ending.Built? ==> r == Handle(team, me))
                && (ending.Failed? && (ending.failure.Placement? || ending.failure.Base?) ==>
                      r == Raise(Unchanged(ending.failure)))
                && (ending.Failed? && (ending.failure.Timeout? || ending.failure.Other?) ==>
                      r == Raise(Wrapped(ending.failure)))
    {
      future := new Promise();
      if team in teams { return Raise(Conflict), future; }
      if team in inFlight {
        var (owner, pending) := inFlight[team];
        assert (owner, pending) in inFlight.Values;
        r := Park(me, user, owner, pending);
        return r, pending;
      }
      inFlight := inFlight[team := (user, future)];
      OthersHeld(me, team, future);
      ManagerCreate(me, team, user, ending);
      r := CreateOutcome(me, team, ending);
      OthersHeld(me, team, future);
      Settle(me, team, future, r);
    }

    /** Without a key the table is not met: the manager runs at once, for the id it `generated`. */
    method CreateTeam(me: CallId, key: Option<TeamId>, generated: TeamId, user: UserId, ending: Ending)
      returns (r: Outcome, future: Option<Promise>)
      requires key.None? ==> generated !in teams
      modifies this, set e <- inFlight.Values :: e.1
      ensures key.None? ==>
                && future.None? && inFlight == old(inFlight)
                && RunsOf(me) == old(RunsOf(me)) + [Run(Create, generated, ending)]
                && (ending.Built? ==> r == Handle(generated, me))
                && (ending.Failed? && (ending.failure.Placement? || ending.failure.Base?) ==>
                      r == Raise(Unchanged(ending.failure)))
                && (ending.Failed? && (ending.failure.Timeout? || ending.failure.Other?) ==>
                      r == Raise(Wrapped(ending.failure)))
                && teams == if ending.Built? then old(teams)[generated := Process(user, Running)] else old(teams)
      ensures key.Some? && key.value in old(teams) ==> r == Raise(Conflict) && unchanged(this)
      ensures key.Some? && key.value !in old(teams) && key.value in old(inFlight) ==>
                && future == Some(old(inFlight[key.value]).1)
                && Joined(old(inFlight[key.value]).0, user, future.value, r)
                && RunsOf(me) == old(RunsOf(me))
                && (user != old(inFlight[key.value]).0 ==> unchanged(this))
      ensures key.Some? && key.value !in old(teams) && key.value !in old(inFlight) ==>
                && future.Some? && fresh(future.value) && future.value.outcome == Some(r) && key.value !in inFlight
                && RunsOf(me) == old(RunsOf(me)) + [Run(Create, key.value, ending)]
                && (ending.Built? ==> r == Handle(key.value, me))
                && (ending.Failed? && (ending.failure.Placement? || ending.failure.Base?) ==>
                      r == Raise(Unchanged(ending.failure)))
                && (ending.Failed? && (ending.failure.Timeout? || ending.failure.Other?) ==>
                      r == Raise(Wrapped(ending.failure)))
    {
      if key.None? {
        ManagerCreate(me, generated, user, ending);
        r := CreateOutcome(me, generated, ending);
        return r, None;
      }
      var shared;
      r, shared := CreateKeyed(me, key.value, user, ending);
      future := Some(shared);
    }

    /** A resume, once it has looked up the team's owner. A key in flight is shared with that
        owner alone; any other is claimed, the manager runs once for it, and its own failures
        leave unchanged. */
    method ResumeOwned(me: CallId, team: TeamId, owner: UserId, ending: Ending, refusal: Failure)
      returns (r: Outcome, future: Promise)
      modifies this, set e <- inFlight.Values :: e.1
      ensures team in old(inFlight) ==>
                && future == old(inFlight[team]).1
                && Joined(old(inFlight[team]).0, owner, future, r)
                && RunsOf(me) == old(RunsOf(me))
                && (owner != old(inFlight[team]).0 ==> unchanged(this))
      ensures team !in old(inFlight) ==>
                && fresh(future) && future.outcome == Some(r) && team !in inFlight
                && |RunsOf(me)| == |old(RunsOf(me))| + 1
                && RunsOf(me)[..|old(RunsOf(me))|] == old(RunsOf(me))
                && var run := RunsOf(me)[|old(RunsOf(me))|];
                   && run.kind == Resume && run.team == team
                   && (run.ending == ending || (ending.Built? && run.ending == Failed(refusal)))
                   && r == if run.ending.Built? then Handle(team, me) else Raise(Unchanged(run.ending.failure))
    {
      if team in inFlight {
        var (holder, pending) := inFlight[team];
        assert (holder, pending) in inFlight.Values;
        r := Park(me, owner, holder, pending);
        return r, pending;
      }
      future := new Promise();
      inFlight := inFlight[team := (owner, future)];
      OthersHeld(me, team, future);
      var ended := ManagerResume(me, team, ending, refusal);
      r := if ended.Built? then Handle(team, me) else Raise(Unchanged(ended.failure));
      OthersHeld(me, team, future);
      Settle(me, team, future, r);
    }

    /** The owner is the one persisted when the call began, or the empty id of an unknown team; the
        claim comes later, and `met` is the entry it met, if any. Meeting one, the call joins it or
        is refused it, and does not run the manager; meeting none, it runs the manager once. */
    method ResumeTeam(me: CallId, team: TeamId, ending: Ending, refusal: Failure)
      returns (r: Outcome, ghost owner: UserId, ghost met: Option<(UserId, Promise)>)
      modifies this, set e <- inFlight.Values :: e.1
      ensures owner == if team in old(teams) then old(teams)[team].user else ""
      ensures met.Some? ==>
                && (met.value in old(inFlight.Values) || fresh(met.value.1))
                && Joined(met.value.0, owner, met.value.1, r) && !IsTimeout(r)
                && RunsOf(me) == old(RunsOf(me))
      ensures met.None? ==>
                && |RunsOf(me)| == |old(RunsOf(me))| + 1
                && RunsOf(me)[..|old(RunsOf(me))|] == old(RunsOf(me))
                && var run := RunsOf(me)[|old(RunsOf(me))|];
                   && run.kind == Resume && run.team == team
                   && (run.ending == ending || (ending.Built? && run.ending == Failed(refusal)))
                   && r == if run.ending.Built? then Handle(team, me) else Raise(Unchanged(run.ending.failure))
    {
      var found := if team in teams then teams[team].user else "";
      owner := found;
      Others(me);
      met := if team in inFlight then Some(inFlight[team]) else None;
      assert met.Some? ==> met.value in inFlight.Values;
      var future;
      r, future := ResumeOwned(me, team, found, ending, refusal);
    }
  }
}
