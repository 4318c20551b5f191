/**
 Two runs of the event stream that its comments and docstrings deny: a reader
 that stays parked after its own `close` has finished, and a team whose
 sequence numbers start again at one.
 */
module StreamTraces {
  import opened Wrappers
  import opened StreamProtocol
  import opened StreamSafety

  ghost predicate Reached(w: World) {
    exists ws, steps :: IsRun(ws, steps) && ws[|steps|] == w
  }

  lemma Go(w: World, a: Action, w': World)
    requires Reached(w) && Enabled(w, a) && Apply(w, a) == w'
    ensures Reached(w')
  {
    var ws, steps :| IsRun(ws, steps) && ws[|steps|] == w;
    var ws', steps' := Extend(ws, steps, a);
  }

  lemma Begin()
    ensures Reached(INITIAL)
  {
    assert IsRun([INITIAL], []);
  }

  // ----- whole operations, run without interference -----

  /** The team has no entry, or one on a free, open stream that nobody reads. */
  predicate QuietTeam(w: World, team: TeamId) {
    team in w.lookup ==> w.lookup[team] < |w.streams| && Quiet(w.streams[w.lookup[team]])
  }

  predicate Quiet(ts: TeamStream) { ts.signals == {} && ts.holder == None && !ts.closed }

  lemma AppendAlone(w: World, t: CallId, team: TeamId, m: Message) returns (w': World)
    requires Reached(w) && t !in w.calls && QuietTeam(w, team)
    ensures Reached(w') && team in w'.lookup && QuietTeam(w', team)
    ensures w'.calls == w.calls[t := Appended(team, w'.lookup[team], m,
              if team in w.lookup then |w.streams[w.lookup[team]].events| + 1 else 1)]
  {
    var w1 := Goto(w, t, AppendLookup(team, m));
    Go(w, Start(t, AppendLookup(team, m)), w1);
    w' := AppendFromLookup(w1, t, team, m);
  }

  lemma AppendFromLookup(w: World, t: CallId, team: TeamId, m: Message) returns (w': World)
    requires Reached(w) && t in w.calls && w.calls[t] == AppendLookup(team, m) && QuietTeam(w, team)
    ensures Reached(w') && team in w'.lookup && QuietTeam(w', team)
    ensures w'.calls == w.calls[t := Appended(team, w'.lookup[team], m,
              if team in w.lookup then |w.streams[w.lookup[team]].events| + 1 else 1)]
  {
    var (made, o) := Resolve(w, team);
    var w1 := Goto(made, t, AppendWrite(team, o, m));
    Go(w, Run(t), w1);
    w' := AppendFromWrite(w1, t, team, o, m);
  }

  lemma AppendFromWrite(w: World, t: CallId, team: TeamId, o: StreamRef, m: Message) returns (w': World)
    requires Reached(w) && t in w.calls && w.calls[t] == AppendWrite(team, o, m)
    requires team in w.lookup && w.lookup[team] == o && QuietTeam(w, team)
    ensures Reached(w') && w'.lookup == w.lookup && QuietTeam(w', team)
    ensures w'.calls == w.calls[t := Appended(team, o, m, |w.streams[o].events| + 1)]
  {
    var ts := w.streams[o];
    var n := |ts.events| + 1;
    var w1 := Goto(Put(w, o, ts.(events := ts.events + [m], authors := ts.authors + [t], holder := Some(t))),
                   t, AppendSignal(team, o, m, n, {}));
    Go(w, Run(t), w1);
    w' := Goto(Put(w1, o, w1.streams[o].(holder := None)), t, Appended(team, o, m, n));
    Go(w1, Run(t), w');
  }

  lemma RemoveAlone(w: World, t: CallId, team: TeamId) returns (w': World)
    requires Reached(w) && t !in w.calls && QuietTeam(w, team) && team in w.lookup
    ensures Reached(w') && team !in w'.lookup && w'.calls == w.calls[t := Removed]
  {
    var o := w.lookup[team];
    var w1 := Goto(w, t, RemoveLookup(team));
    Go(w, Start(t, RemoveLookup(team)), w1);
    var w2 := Goto(w1.(lookup := w1.lookup - {team}), t, RemoveMark(o));
    Go(w1, Run(t), w2);
    w' := RemoveFromMark(w2, t, o);
  }

  lemma RemoveFromMark(w: World, t: CallId, o: StreamRef) returns (w': World)
    requires Reached(w) && t in w.calls && w.calls[t] == RemoveMark(o) && o < |w.streams| && Quiet(w.streams[o])
    ensures Reached(w') && w'.lookup == w.lookup && w'.calls == w.calls[t := Removed]
  {
    var w1 := Goto(Put(w, o, w.streams[o].(closed := true, holder := Some(t))), t, RemoveSignal(o, {}));
    Go(w, Run(t), w1);
    w' := Goto(Put(w1, o, w1.streams[o].(holder := None)), t, Removed);
    Go(w1, Run(t), w');
  }

  /** Sequence numbers are per stream object, not per team: two appends to one team can both
      return 1, when the team's stream was removed in between. */
  lemma NumbersRestart()
    ensures exists w, t, t', team, o, o', m, m' ::
      Reached(w) && t != t' && t in w.calls && t' in w.calls &&
      w.calls[t] == Appended(team, o, m, 1) && w.calls[t'] == Appended(team, o', m', 1)
  {
    Begin();
    var w1 := AppendAlone(INITIAL, 1, 7, Message(5));
    var w2 := RemoveAlone(w1, 2, 7);
    var w3 := AppendAlone(w2, 3, 7, Message(6));
    assert w3.calls[1] == Appended(7, w1.lookup[7], Message(5), 1);
    assert w3.calls[3] == Appended(7, w3.lookup[7], Message(6), 1);
  }

  // ----- a reader parked for good -----

  /** One subscriber of team 7's open empty stream, its reader as given. */
  function Subscriber(rd: Reader): World {
    World(map[7 := 0], [TeamStream([], {0}, None, false, [])], [false], [rd], map[0 := Subscribed(0)])
  }

  function At(pc: ReadPc): Reader { Reader(0, 0, 0, 0, false, pc, []) }

  lemma SubscriberReached()
    ensures Reached(Subscriber(At(Idle)))
  {
    Begin();
    var w1 := Goto(INITIAL, 0, SubscribeLookup(7, 0));
    Go(INITIAL, Start(0, SubscribeLookup(7, 0)), w1);
    var w2 := World(map[7 := 0], [EMPTY_STREAM], [], [], map[0 := SubscribeJoin(0, 0)]);
    Go(w1, Run(0), w2);
    Join(w2);
  }

  lemma Join(w: World)
    requires Reached(w) && w == World(map[7 := 0], [EMPTY_STREAM], [], [], map[0 := SubscribeJoin(0, 0)])
    ensures Reached(Subscriber(At(Idle)))
  {
    var w' := Subscriber(At(Idle));
    var joined := Apply(w, Run(0));
    assert joined.streams[0].signals == {0} && |joined.streams| == 1;
    assert joined.streams == w'.streams && joined.flags == w'.flags && joined.readers == w'.readers;
    assert joined.calls == w'.calls;
    Go(w, Run(0), w');
  }

  lemma ReadOnce(pc: ReadPc, pc': ReadPc)
    requires Reached(Subscriber(At(pc))) && !pc.Parked? && !pc.Fetch?
    requires Advance(At(pc), TeamStream([], {0}, None, false, [])) == At(pc')
    ensures Reached(Subscriber(At(pc')))
  {
    var w := Subscriber(At(pc));
    assert w.readers[0 := At(pc')] == [At(pc')];
    assert w.flags[0 := false] == w.flags;
    Go(w, Read(0), Subscriber(At(pc')));
  }

  lemma ParkedReached()
    ensures Reached(Subscriber(At(Parked)))
  {
    SubscriberReached();
    ReadOnce(Idle, CheckSelf(First));
    ReadOnce(CheckSelf(First), TryAdvance(First));
    ReadOnce(TryAdvance(First), CheckClosed(First));
    ReadOnce(CheckClosed(First), ClearSignal);
    RecheckReached();
  }

  lemma RecheckReached()
    requires Reached(Subscriber(At(ClearSignal)))
    ensures Reached(Subscriber(At(Parked)))
  {
    ReadOnce(ClearSignal, CheckSelf(Recheck));
    ReadOnce(CheckSelf(Recheck), TryAdvance(Recheck));
    ReadOnce(TryAdvance(Recheck), CheckClosed(Recheck));
    ReadOnce(CheckClosed(Recheck), Parked);
  }

  /** The reader of Subscriber(Parked), closed by call 1: once `close` has set the flag, and
      once it has left the stream's signals too. */
  function Closing(left: bool): World {
    var w := Subscriber(At(Parked).(closed := true));
    if left then World(w.lookup, [EMPTY_STREAM], [false], w.readers, map[0 := Subscribed(0), 1 := Closed])
    else Goto(w, 1, CloseLeave(0))
  }

  lemma ClosingReached()
    ensures Reached(Closing(false))
  {
    ParkedReached();
    var w0 := Subscriber(At(Parked));
    var w1 := Goto(w0, 1, CloseCheck(0));
    Go(w0, Start(1, CloseCheck(0)), w1);
    Go(w1, Run(1), Goto(w1, 1, CloseMark(0)));
    MarkReached(Goto(w1, 1, CloseMark(0)));
  }

  lemma MarkReached(w2: World)
    requires Reached(w2) && w2 == Goto(Goto(Subscriber(At(Parked)), 1, CloseCheck(0)), 1, CloseMark(0))
    ensures Reached(Closing(false))
  {
    assert Apply(w2, Run(1)).calls == Closing(false).calls;
    assert Apply(w2, Run(1)).readers == Closing(false).readers;
    Go(w2, Run(1), Closing(false));
  }

  /** `close` does not wake the reader it closes: there is a run in which the close has
      finished and the reader is still parked, on an unset signal that nothing will set. */
  lemma CloseDoesNotWake()
    ensures exists w, r, t ::
      Reached(w) && 0 <= r < |w.readers| && w.readers[r].pc.Parked? && w.readers[r].closed &&
      Forgotten(w, w.readers[r].signal) && !w.flags[w.readers[r].signal] && t in w.calls && w.calls[t] == Closed
  {
    LeftReached();
    var w := Closing(true);
    assert w.calls[1] == Closed && Forgotten(w, 0);
    assert w.readers[0] == At(Parked).(closed := true);
  }

  lemma LeftReached()
    ensures Reached(Closing(true))
  {
    ClosingReached();
    var w, w' := Closing(false), Closing(true);
    assert w.streams[0].signals - {0} == {};
    var left := Apply(w, Run(1));
    assert left.streams == w'.streams && left.calls == w'.calls;
    Go(w, Run(1), w');
  }
}
