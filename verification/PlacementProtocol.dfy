/**
 The community placement as a protocol: any number of concurrent calls of
 `create_team` and `resume_team` sharing one in-flight table, interleaved at each
 critical section, at each visible effect of the team manager, and at each
 future that is resolved or waited on.

 The team manager is outside the repository. What is taken of it: `get_team`
 reads the persisted teams; `create_team` persists the team only once it can no
 longer fail; `resume_team` persists nothing new and succeeds on a stopped team
 only; and a generated id names no team and no call.
 */
module PlacementProtocol {
  import opened Wrappers

  type TeamId = nat
  type CallId = nat
  type FutureRef = nat
  type UserId = string

  datatype Status = Running | Stopped | Deleted
  datatype Process = Process(user: UserId, status: Status)

  /** What a call of the team manager may raise; `Base` is no `Exception`. */
  datatype Failure = Placement(id: nat) | Timeout(id: nat) | Other(id: nat) | Base(id: nat)

  datatype Raised =
    | Conflict                   // 409 team_id_conflict
    | GaveUp                     // 503: the parked claim did not finish in time
    | Wrapped(cause: Failure)    // 503: "Local team creation failed"
    | Unchanged(failure: Failure)

  /** A handle is named by its team and by the call that made it. */
  datatype Outcome = Handle(team: TeamId, maker: CallId) | Raise(error: Raised)

  datatype Kind = Create | Resume

  /** `claimant` and `kind` are history: the call that put the future in the table. */
  datatype Future = Future(claimant: CallId, kind: Kind, outcome: Option<Outcome>)
  datatype Entry = Entry(owner: UserId, future: FutureRef)

  datatype Pc =
    | CreateClaim(team: TeamId, user: UserId)
    | ResumeLook(team: TeamId)
    | ResumeClaim(team: TeamId, user: UserId)
    | Creating(team: TeamId, user: UserId, future: FutureRef)
    | Persisted(team: TeamId, user: UserId, future: FutureRef)
    | Resuming(team: TeamId, user: UserId, future: FutureRef)
    | Resolving(team: TeamId, user: UserId, future: FutureRef, kind: Kind, outcome: Outcome)
    | Popping(team: TeamId, user: UserId, future: FutureRef, kind: Kind, outcome: Outcome)
    | Parked(team: TeamId, user: UserId, future: FutureRef, kind: Kind)
    | CreateAlone(user: UserId)
    | Finished(outcome: Outcome, claim: Claim)

  /** How a finished call met the table: its own claim, a wait answered, or neither. */
  datatype Claim =
    | Claimed(team: TeamId, user: UserId, future: FutureRef)
    | Answered(team: TeamId, user: UserId, future: FutureRef)
    | Unclaimed

  datatype World = World(
    teams: map<TeamId, Process>,
    inFlight: map<TeamId, Entry>,
    futures: seq<Future>,
    calls: map<CallId, Pc>)

  datatype Action =
    | Start(c: CallId, op: Pc)
    | Look(c: CallId)
    | Claim(c: CallId)
    | Persist(c: CallId)
    | Return(c: CallId)
    | Fail(c: CallId, failure: Failure)
    | Resolve(c: CallId)
    | Pop(c: CallId)
    | Answer(c: CallId)
    | GiveUp(c: CallId)
    | Generate(c: CallId, team: TeamId)
    | SetStatus(team: TeamId, status: Status)   // stop, retire or revive, by anyone
    | Purge(team: TeamId)                       // hard deletion, by anyone

  const INITIAL := World(map[], map[], [], map[])

  /** The team manager is running a create or a resume for this call. */
  predicate InManager(pc: Pc) { pc.Creating? || pc.Persisted? || pc.Resuming? }

  /** The call holds a claim: it has inserted its entry and not yet popped it. */
  predicate Holds(pc: Pc) { InManager(pc) || pc.Resolving? || pc.Popping? }

  predicate Names(pc: Pc, team: TeamId) {
    !pc.CreateAlone? && !pc.Finished? && pc.team == team
  }

  predicate IsOperation(pc: Pc) { pc.CreateClaim? || pc.ResumeLook? || pc.CreateAlone? }

  /** A generated id: no team, no entry and no call has it. */
  ghost predicate IsFresh(w: World, team: TeamId) {
    team !in w.teams && team !in w.inFlight && forall c <- w.calls :: !Names(w.calls[c], team)
  }

  ghost predicate Enabled(w: World, a: Action) {
    match a
    case Start(c, op) => c !in w.calls && IsOperation(op)
    case Look(c) => c in w.calls && w.calls[c].ResumeLook?
    case Claim(c) => c in w.calls && (w.calls[c].CreateClaim? || w.calls[c].ResumeClaim?)
    case Persist(c) => c in w.calls && w.calls[c].Creating?
    case Return(c) => c in w.calls &&
      (w.calls[c].Persisted? ||
       (w.calls[c].Resuming? && w.calls[c].team in w.teams && w.teams[w.calls[c].team].status == Stopped))
    case Fail(c, _) => c in w.calls && (w.calls[c].Creating? || w.calls[c].Resuming? || w.calls[c].CreateAlone?)
    case Resolve(c) => c in w.calls && w.calls[c].Resolving? && w.calls[c].future < |w.futures|
    case Pop(c) => c in w.calls && w.calls[c].Popping?
    case Answer(c) => c in w.calls && w.calls[c].Parked? && w.calls[c].future < |w.futures|
      && w.futures[w.calls[c].future].outcome.Some?
    case GiveUp(c) => c in w.calls && w.calls[c].Parked? && w.calls[c].future < |w.futures|
      && w.futures[w.calls[c].future].outcome.None?
    case Generate(c, team) => c in w.calls && w.calls[c].CreateAlone? && IsFresh(w, team)
    case SetStatus(team, _) => team in w.teams
    case Purge(team) => team in w.teams
  }

  /** What `_create` lets out: an `Exception` that is no `PlacementError` is wrapped. */
  function CreateError(failure: Failure): (r: Raised)
    ensures failure.Timeout? || failure.Other? ==> r == Wrapped(failure)
    ensures failure.Placement? || failure.Base? ==> r == Unchanged(failure)
  {
    if failure.Placement? || failure.Base? then Unchanged(failure) else Wrapped(failure)
  }

  /** What `_park` makes of a future's outcome: a `TimeoutError` reads as its own timeout. */
  function Shared(outcome: Outcome): Outcome {
    if outcome.Raise? && outcome.error.Unchanged? && outcome.error.failure.Timeout? then Raise(GaveUp) else outcome
  }

  function Goto(w: World, c: CallId, pc: Pc): World {
    w.(calls := w.calls[c := pc])
  }

  /** Insert a claim, or park on the one that is there, or be refused it. */
  function Enter(w: World, c: CallId, team: TeamId, user: UserId, kind: Kind): World {
    if team !in w.inFlight then
      var f := |w.futures|;
      Goto(w.(futures := w.futures + [Future(c, kind, None)], inFlight := w.inFlight[team := Entry(user, f)]), c,
           if kind == Create then Creating(team, user, f) else Resuming(team, user, f))
    else if w.inFlight[team].owner != user then Goto(w, c, Finished(Raise(Conflict), Unclaimed))
    else Goto(w, c, Parked(team, user, w.inFlight[team].future, kind))
  }

  function Apply(w: World, a: Action): World
    requires Enabled(w, a)
  {
    match a
    case Start(c, op) => Goto(w, c, op)
    case Look(c) =>
      var team := w.calls[c].team;
      Goto(w, c, ResumeClaim(team, if team in w.teams then w.teams[team].user else ""))
    case Claim(c) =>
      var pc := w.calls[c];
      if pc.CreateClaim? && pc.team in w.teams then Goto(w, c, Finished(Raise(Conflict), Unclaimed))
      else Enter(w, c, pc.team, pc.user, if pc.CreateClaim? then Create else Resume)
    case Persist(c) =>
      var pc := w.calls[c];
      Goto(w.(teams := w.teams[pc.team := Process(pc.user, Running)]), c, Persisted(pc.team, pc.user, pc.future))
    case Return(c) =>
      var pc := w.calls[c];
      if pc.Persisted? then Goto(w, c, Resolving(pc.team, pc.user, pc.future, Create, Handle(pc.team, c)))
      else Goto(w.(teams := w.teams[pc.team := w.teams[pc.team].(status := Running)]), c,
                Resolving(pc.team, pc.user, pc.future, Resume, Handle(pc.team, c)))
    case Fail(c, failure) =>
      var pc := w.calls[c];
      if pc.CreateAlone? then Goto(w, c, Finished(Raise(CreateError(failure)), Unclaimed))
      else if pc.Creating? then
        Goto(w, c, Resolving(pc.team, pc.user, pc.future, Create, Raise(CreateError(failure))))
      else Goto(w, c, Resolving(pc.team, pc.user, pc.future, Resume, Raise(Unchanged(failure))))
    case Resolve(c) =>
      var pc := w.calls[c];
      var f := w.futures[pc.future].(outcome := Some(pc.outcome));
      Goto(w.(futures := w.futures[pc.future := f]), c, Popping(pc.team, pc.user, pc.future, pc.kind, pc.outcome))
    case Pop(c) =>
      var pc := w.calls[c];
      Goto(w.(inFlight := w.inFlight - {pc.team}), c, Finished(pc.outcome, Claimed(pc.team, pc.user, pc.future)))
    case Answer(c) =>
      var pc := w.calls[c];
      Goto(w, c, Finished(Shared(w.futures[pc.future].outcome.value), Answered(pc.team, pc.user, pc.future)))
    case GiveUp(c) => Goto(w, c, Finished(Raise(GaveUp), Unclaimed))
    case Generate(c, team) =>
      Goto(w.(teams := w.teams[team := Process(w.calls[c].user, Running)]), c, Finished(Handle(team, c), Unclaimed))
    case SetStatus(team, status) => w.(teams := w.teams[team := w.teams[team].(status := status)])
    case Purge(team) => w.(teams := w.teams - {team})
  }

  /** A run: worlds and the steps between them, from an empty system. */
  ghost predicate IsRun(ws: seq<World>, steps: seq<Action>) {
    && |ws| == |steps| + 1
    && ws[0] == INITIAL
    && forall i | 0 <= i < |steps| :: Enabled(ws[i], steps[i]) && ws[i + 1] == Apply(ws[i], steps[i])
  }
}
