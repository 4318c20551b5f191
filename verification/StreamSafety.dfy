/**
 What every interleaving of the event-stream protocol keeps: an inductive
 invariant, and the theorems about whole runs that follow from it.
 */
module StreamSafety {
  import opened Wrappers
  import opened StreamProtocol

  // ----- the invariant -----

  ghost predicate ObjectsOk(w: World) {
    && (forall o | 0 <= o < |w.streams| ::
          && |w.streams[o].authors| == |w.streams[o].events|
          && (forall sig <- w.streams[o].signals :: sig < |w.flags|))
    && (forall t <- w.calls :: InRange(w, w.calls[t]))
  }

  /** The map names open streams only, and each under one team. */
  ghost predicate MapOk(w: World) {
    && (forall team <- w.lookup :: EntryOk(w, team))
    && (forall a <- w.lookup, b <- w.lookup :: w.lookup[a] == w.lookup[b] ==> a == b)
  }

  predicate EntryOk(w: World, team: TeamId)
    requires team in w.lookup
  {
    w.lookup[team] < |w.streams| && !w.streams[w.lookup[team]].closed
  }

  predicate IsRemoving(pc: Pc) { pc.RemoveMark? || pc.RemoveSignal? }

  /** The map holds no stream that a call of `remove` has popped. */
  ghost predicate PoppedOk(w: World) {
    forall t <- w.calls | IsRemoving(w.calls[t]) :: Unmapped(w, w.calls[t].stream)
  }

  ghost predicate Unmapped(w: World, o: StreamRef) {
    o < |w.streams| && forall team <- w.lookup :: w.lookup[team] != o
  }

  /** A stream's lock is held by exactly the call inside its critical section. */
  ghost predicate LocksOk(w: World) {
    && (forall t <- w.calls, o | 0 <= o < |w.streams| ::
          Inside(w.calls[t], o) <==> w.streams[o].holder == Some(t))
    && (forall o | 0 <= o < |w.streams| && w.streams[o].holder.Some? :: w.streams[o].holder.value in w.calls)
  }

  /** The call wrote event number `n` of stream `o`. */
  predicate Wrote(pc: Pc, o: StreamRef, n: nat) {
    (pc.AppendSignal? || pc.Appended?) && pc.stream == o && pc.number == n
  }

  predicate IsAuthor(pc: Pc) { pc.AppendSignal? || pc.Appended? }

  /** Call `t` is no author, or the event at the place it was given is its own. */
  predicate AuthorOk(w: World, t: CallId, pc: Pc) {
    IsAuthor(pc) ==>
      && pc.stream < |w.streams|
      && var ts := w.streams[pc.stream];
      && 1 <= pc.number <= |ts.events| && pc.number <= |ts.authors|
      && ts.events[pc.number - 1] == pc.msg
      && ts.authors[pc.number - 1] == t
  }

  /** Every event is one append call's own, and that call's number is the event's place. */
  ghost predicate AuthorsOk(w: World) {
    && (forall t <- w.calls :: AuthorOk(w, t, w.calls[t]))
    && (forall o | 0 <= o < |w.streams| :: SlotsOk(w, o))
  }

  ghost predicate SlotsOk(w: World, o: StreamRef)
    requires o < |w.streams|
  {
    forall k | 0 <= k < |w.streams[o].authors| ::
      w.streams[o].authors[k] in w.calls && Wrote(w.calls[w.streams[o].authors[k]], o, k + 1)
  }

  /** What a reader that owns its signal can rely on: the signal is set, or the call
      inside the stream's critical section has still to set it, or the reader has
      left the stream. */
  predicate WakeupOwed(w: World, rd: Reader)
    requires ReaderInRange(w, rd)
  {
    var ts := w.streams[rd.stream];
    || w.flags[rd.signal]
    || rd.signal !in ts.signals
    || (ts.holder.Some? && ts.holder.value in w.calls && rd.signal in StillToSet(w.calls[ts.holder.value], rd.stream))
  }

  ghost predicate ReaderOk(w: World, rd: Reader) {
    && ReaderInRange(w, rd)
    && var ts := w.streams[rd.stream];
    && rd.start <= rd.cursor
    && (rd.start < rd.cursor ==> rd.cursor <= |ts.events|)
    && rd.delivered == (if rd.start < rd.cursor then ts.events[rd.start..rd.cursor] else [])
    && (match rd.pc
        case Fetch => rd.cursor < |ts.events|
        case TryAgain => ts.closed
        case Raised(true) => rd.closed
        case Raised(false) => ts.closed && |ts.events| <= rd.cursor
        case CheckClosed(phase) => phase == Recheck ==> |ts.events| <= rd.cursor || WakeupOwed(w, rd)
        case Parked => (|ts.events| <= rd.cursor && !ts.closed) || WakeupOwed(w, rd)
        case _ => true)
  }

  ghost predicate ReadersOk(w: World) {
    && (forall r | 0 <= r < |w.readers| :: ReaderOk(w, w.readers[r]))
    && (forall r, r' | 0 <= r < r' < |w.readers| :: w.readers[r].signal != w.readers[r'].signal)
  }

  ghost predicate Inv(w: World) {
    ObjectsOk(w) && MapOk(w) && PoppedOk(w) && LocksOk(w) && AuthorsOk(w) && ReadersOk(w)
  }

  // ----- what a step keeps -----

  predicate AtLookup(pc: Pc) { pc.AppendLookup? || pc.SubscribeLookup? || pc.RemoveLookup? }
  predicate AtWrite(pc: Pc) { pc.AppendWrite? || pc.SubscribeJoin? || pc.RemoveMark? }
  predicate AtLeave(pc: Pc) { pc.AppendSignal? || pc.RemoveSignal? || pc.CloseLeave? }

  lemma ObjectsStepLookup(w: World, a: Action)
    requires ObjectsOk(w) && MapOk(w) && ReadersOk(w)
    requires Enabled(w, a) && a.Run? && AtLookup(w.calls[a.t])
    ensures ObjectsOk(Apply(w, a))
  {
  }

  lemma ObjectsStepWrite(w: World, a: Action)
    requires ObjectsOk(w) && MapOk(w) && ReadersOk(w)
    requires Enabled(w, a) && a.Run? && AtWrite(w.calls[a.t])
    ensures ObjectsOk(Apply(w, a))
  {
  }

  lemma ObjectsStepLeave(w: World, a: Action)
    requires ObjectsOk(w) && MapOk(w) && ReadersOk(w)
    requires Enabled(w, a) && a.Run? && AtLeave(w.calls[a.t])
    ensures ObjectsOk(Apply(w, a))
  {
  }

  lemma ObjectsStepOther(w: World, a: Action)
    requires ObjectsOk(w) && MapOk(w) && ReadersOk(w)
    requires Enabled(w, a) && (a.Run? ==> !AtLookup(w.calls[a.t]) && !AtWrite(w.calls[a.t]) && !AtLeave(w.calls[a.t]))
    ensures ObjectsOk(Apply(w, a))
  {
  }

  lemma MapStep(w: World, a: Action)
    requires MapOk(w) && PoppedOk(w) && Enabled(w, a)
    ensures MapOk(Apply(w, a))
  {
    var w' := Apply(w, a);
    forall team <- w'.lookup ensures EntryOk(w', team) {
      if team in w.lookup { assert EntryOk(w, team); }
      if a.Run? && w.calls[a.t].RemoveMark? { assert Unmapped(w, w.calls[a.t].stream); }
    }
  }

  lemma PoppedStep(w: World, a: Action)
    requires MapOk(w) && PoppedOk(w) && Enabled(w, a)
    ensures PoppedOk(Apply(w, a))
  {
    var w' := Apply(w, a);
    forall t <- w'.calls | IsRemoving(w'.calls[t]) ensures Unmapped(w', w'.calls[t].stream) {
      if t in w.calls && IsRemoving(w.calls[t]) {
        assert Unmapped(w, w.calls[t].stream);
      } else {
        assert a.Run? && w.calls[t].RemoveLookup?;
        assert EntryOk(w, w.calls[t].team);
      }
    }
  }

  lemma LocksStepLookup(w: World, a: Action)
    requires ObjectsOk(w) && MapOk(w) && LocksOk(w)
    requires Enabled(w, a) && a.Run? && AtLookup(w.calls[a.t])
    ensures LocksOk(Apply(w, a))
  {
  }

  lemma LocksStepWrite(w: World, a: Action)
    requires ObjectsOk(w) && MapOk(w) && LocksOk(w)
    requires Enabled(w, a) && a.Run? && AtWrite(w.calls[a.t])
    ensures LocksOk(Apply(w, a))
  {
  }

  lemma LocksStepLeave(w: World, a: Action)
    requires ObjectsOk(w) && MapOk(w) && LocksOk(w)
    requires Enabled(w, a) && a.Run? && AtLeave(w.calls[a.t])
    ensures LocksOk(Apply(w, a))
  {
  }

  lemma LocksStepOther(w: World, a: Action)
    requires ObjectsOk(w) && MapOk(w) && LocksOk(w)
    requires Enabled(w, a) && (a.Run? ==> !AtLookup(w.calls[a.t]) && !AtWrite(w.calls[a.t]) && !AtLeave(w.calls[a.t]))
    ensures LocksOk(Apply(w, a))
  {
  }

  /** Between two steps, call `t` alone moved, keeping whatever event it has written. */
  predicate AuthorKept(w: World, w': World, t: CallId) {
    && t in w'.calls && w'.calls == w.calls[t := w'.calls[t]]
    && (if t in w.calls && IsAuthor(w.calls[t])
        then IsAuthor(w'.calls[t]) && w'.calls[t].stream == w.calls[t].stream
             && w'.calls[t].number == w.calls[t].number && w'.calls[t].msg == w.calls[t].msg
        else !IsAuthor(w'.calls[t]))
  }

  predicate SameEvents(ts: TeamStream, ts': TeamStream) {
    ts.events == ts'.events && ts.authors == ts'.authors
  }

  lemma SlotsFrame(w: World, w': World, t: CallId, o: StreamRef)
    requires AuthorsOk(w) && AuthorKept(w, w', t) && o < |w'.streams|
    requires if o < |w.streams| then SameEvents(w.streams[o], w'.streams[o]) else w'.streams[o].authors == []
    ensures SlotsOk(w', o)
  {
    if o < |w.streams| { assert SlotsOk(w, o); }
  }

  lemma AuthorFrame(w: World, w': World, t: CallId, t': CallId)
    requires AuthorsOk(w) && AuthorKept(w, w', t) && t' in w'.calls && |w.streams| <= |w'.streams|
    requires forall o | 0 <= o < |w.streams| :: SameEvents(w.streams[o], w'.streams[o])
    ensures AuthorOk(w', t', w'.calls[t'])
  {
    if t' in w.calls { assert AuthorOk(w, t', w.calls[t']); }
  }

  lemma AuthorsFrame(w: World, w': World, t: CallId)
    requires AuthorsOk(w) && AuthorKept(w, w', t) && |w.streams| <= |w'.streams|
    requires forall o | 0 <= o < |w.streams| :: SameEvents(w.streams[o], w'.streams[o])
    requires forall o | |w.streams| <= o < |w'.streams| :: w'.streams[o].authors == []
    ensures AuthorsOk(w')
  {
    forall t' <- w'.calls ensures AuthorOk(w', t', w'.calls[t']) { AuthorFrame(w, w', t, t'); }
    forall o | 0 <= o < |w'.streams| ensures SlotsOk(w', o) { SlotsFrame(w, w', t, o); }
  }

  lemma AuthorsStepWrite(w: World, t: CallId)
    requires AuthorsOk(w) && Enabled(w, Run(t)) && w.calls[t].AppendWrite? && !w.streams[w.calls[t].stream].closed
    requires |w.streams[w.calls[t].stream].authors| == |w.streams[w.calls[t].stream].events|
    ensures AuthorsOk(Apply(w, Run(t)))
  {
    var w' := Apply(w, Run(t));
    forall o | 0 <= o < |w'.streams| ensures SlotsOk(w', o) { assert SlotsOk(w, o); }
  }

  lemma AuthorsStep(w: World, a: Action)
    requires ObjectsOk(w) && AuthorsOk(w) && Enabled(w, a)
    ensures AuthorsOk(Apply(w, a))
  {
    var w' := Apply(w, a);
    if a.Run? && w.calls[a.t].AppendWrite? && !w.streams[w.calls[a.t].stream].closed {
      AuthorsStepWrite(w, a.t);
    } else if a.Start? || a.Run? || a.SetSignal? {
      AuthorsFrame(w, w', a.t);
    } else {
      forall o | 0 <= o < |w'.streams| ensures SlotsOk(w', o) { assert SlotsOk(w, o); }
    }
  }

  /** All that a step of anyone else can do to a reader: it leaves what the reader has seen
      in place, and if it touches what the reader waits for, it owes the reader a wakeup. */
  ghost predicate Kept(w: World, w': World, rd: Reader)
    requires ReaderInRange(w, rd)
  {
    && ReaderInRange(w', rd)
    && var ts, ts' := w.streams[rd.stream], w'.streams[rd.stream];
    && ts.events <= ts'.events
    && (ts.closed ==> ts'.closed && ts'.events == ts.events)
    && (WakeupOwed(w', rd) || (!WakeupOwed(w, rd) && ts'.events == ts.events && ts'.closed == ts.closed))
  }

  lemma KeptByWrite(w: World, t: CallId, rd: Reader)
    requires ObjectsOk(w) && LocksOk(w) && ReaderInRange(w, rd) && Enabled(w, Run(t)) && AtWrite(w.calls[t])
    ensures Kept(w, Apply(w, Run(t)), rd)
  {
  }

  lemma KeptByRun(w: World, t: CallId, rd: Reader)
    requires ObjectsOk(w) && LocksOk(w) && ReaderInRange(w, rd) && Enabled(w, Run(t)) && !AtWrite(w.calls[t])
    ensures Kept(w, Apply(w, Run(t)), rd)
  {
  }

  lemma KeptByOther(w: World, a: Action, rd: Reader)
    requires ObjectsOk(w) && LocksOk(w) && ReaderInRange(w, rd) && Enabled(w, a) && !a.Run?
    requires a.Read? ==> w.readers[a.r].signal != rd.signal
    ensures Kept(w, Apply(w, a), rd)
  {
  }

  lemma KeptReaderOk(w: World, w': World, rd: Reader)
    requires ReaderOk(w, rd) && Kept(w, w', rd)
    ensures ReaderOk(w', rd)
  {
  }

  lemma OwnStep(w: World, r: ReaderRef)
    requires Enabled(w, Read(r)) && ReaderOk(w, w.readers[r])
    ensures ReaderOk(Apply(w, Read(r)), Apply(w, Read(r)).readers[r])
  {
  }

  lemma ReadersStep(w: World, a: Action)
    requires ObjectsOk(w) && LocksOk(w) && ReadersOk(w) && Enabled(w, a)
    ensures ReadersOk(Apply(w, a))
  {
    var w' := Apply(w, a);
    SignalsStep(w, a);
    forall r | 0 <= r < |w'.readers| ensures ReaderOk(w', w'.readers[r]) {
      if r < |w.readers| {
        var rd := w.readers[r];
        assert ReaderOk(w, rd);
        if a == Read(r) {
          OwnStep(w, r);
        } else {
          if a.Run? && AtWrite(w.calls[a.t]) { KeptByWrite(w, a.t, rd); }
          else if a.Run? { KeptByRun(w, a.t, rd); }
          else { KeptByOther(w, a, rd); }
          KeptReaderOk(w, w', rd);
          assert w'.readers[r] == rd || w'.readers[r] == rd.(closed := true)
                 || w'.readers[r] == rd.(pc := CheckSelf(Last));
        }
      }
    }
  }

  /** No two readers share a signal, and a new reader starts at its cursor with nothing read. */
  lemma SignalsStep(w: World, a: Action)
    requires ReadersOk(w) && Enabled(w, a)
    ensures var w' := Apply(w, a);
      && |w.readers| <= |w'.readers| <= |w.readers| + 1
      && (forall r, r' | 0 <= r < r' < |w'.readers| :: w'.readers[r].signal != w'.readers[r'].signal)
      && (|w.readers| < |w'.readers| ==> ReaderOk(w', w'.readers[|w.readers|]))
  {
    var w' := Apply(w, a);
    if |w.readers| < |w'.readers| {
      forall r | 0 <= r < |w.readers| ensures w'.readers[r].signal < |w.flags| { assert ReaderOk(w, w.readers[r]); }
    } else {
      SameSignals(w, a);
    }
  }

  lemma SameSignals(w: World, a: Action)
    requires Enabled(w, a) && |Apply(w, a).readers| <= |w.readers|
    ensures |Apply(w, a).readers| == |w.readers|
    ensures forall r | 0 <= r < |w.readers| :: Apply(w, a).readers[r].signal == w.readers[r].signal
  {
  }

  /** One step, whoever takes it, keeps the whole invariant. */
  lemma InvStep(w: World, a: Action)
    requires Inv(w) && Enabled(w, a)
    ensures Inv(Apply(w, a))
  {
    if a.Run? && AtLookup(w.calls[a.t]) { ObjectsStepLookup(w, a); LocksStepLookup(w, a); }
    else if a.Run? && AtWrite(w.calls[a.t]) { ObjectsStepWrite(w, a); LocksStepWrite(w, a); }
    else if a.Run? && AtLeave(w.calls[a.t]) { ObjectsStepLeave(w, a); LocksStepLeave(w, a); }
    else { ObjectsStepOther(w, a); LocksStepOther(w, a); }
    MapStep(w, a);
    PoppedStep(w, a);
    AuthorsStep(w, a);
    ReadersStep(w, a);
  }

  // ----- what lasts from one moment of a run to any later one -----

  /** A stream object only ever grows, and not at all once closed. */
  predicate StreamGrows(ts: TeamStream, ts': TeamStream) {
    && ts.events <= ts'.events && ts.authors <= ts'.authors
    && (ts.closed ==> ts'.closed && ts'.events == ts.events)
  }

  predicate ReaderGrows(rd: Reader, rd': Reader) {
    && rd'.stream == rd.stream && rd'.signal == rd.signal && rd'.start == rd.start
    && rd.delivered <= rd'.delivered && rd.cursor <= rd'.cursor
    && (rd.closed ==> rd'.closed)
  }

  ghost predicate Grows(w: World, w': World) {
    StreamsGrow(w, w') && ReadersGrow(w, w') && CallsLast(w, w')
  }

  ghost predicate StreamsGrow(w: World, w': World) {
    |w.streams| <= |w'.streams| && forall o | 0 <= o < |w.streams| :: StreamGrows(w.streams[o], w'.streams[o])
  }

  ghost predicate ReadersGrow(w: World, w': World) {
    |w.readers| <= |w'.readers| && forall r | 0 <= r < |w.readers| :: ReaderGrows(w.readers[r], w'.readers[r])
  }

  ghost predicate CallsLast(w: World, w': World) {
    forall t <- w.calls :: t in w'.calls && (IsDone(w.calls[t]) ==> w'.calls[t] == w.calls[t])
  }

  lemma StreamsStep(w: World, a: Action)
    requires Enabled(w, a)
    ensures StreamsGrow(w, Apply(w, a))
  {
  }

  lemma ReadersGrowStep(w: World, a: Action)
    requires Enabled(w, a)
    ensures ReadersGrow(w, Apply(w, a))
  {
  }

  lemma CallsStep(w: World, a: Action)
    requires Enabled(w, a)
    ensures CallsLast(w, Apply(w, a))
  {
  }

  /** A run: worlds and the steps between them, starting with nothing created. */
  ghost predicate IsRun(ws: seq<World>, steps: seq<Action>) {
    && |ws| == |steps| + 1
    && ws[0] == INITIAL
    && forall i | 0 <= i < |steps| :: Enabled(ws[i], steps[i]) && ws[i + 1] == Apply(ws[i], steps[i])
  }

  lemma {:induction false} RunInv(ws: seq<World>, steps: seq<Action>, i: nat)
    requires IsRun(ws, steps) && i < |ws|
    ensures Inv(ws[i])
  {
    if i == 0 {
    } else {
      RunInv(ws, steps, i - 1);
      InvStep(ws[i - 1], steps[i - 1]);
    }
  }

  lemma StreamsGrowOn(w: World, w': World, w'': World)
    requires StreamsGrow(w, w') && StreamsGrow(w', w'')
    ensures StreamsGrow(w, w'')
  {
    forall o | 0 <= o < |w.streams| ensures StreamGrows(w.streams[o], w''.streams[o]) {
      assert StreamGrows(w.streams[o], w'.streams[o]) && StreamGrows(w'.streams[o], w''.streams[o]);
    }
  }

  lemma ReadersGrowOn(w: World, w': World, w'': World)
    requires ReadersGrow(w, w') && ReadersGrow(w', w'')
    ensures ReadersGrow(w, w'')
  {
    forall r | 0 <= r < |w.readers| ensures ReaderGrows(w.readers[r], w''.readers[r]) {
      assert ReaderGrows(w.readers[r], w'.readers[r]) && ReaderGrows(w'.readers[r], w''.readers[r]);
    }
  }

  lemma CallsLastOn(w: World, w': World, w'': World)
    requires CallsLast(w, w') && CallsLast(w', w'')
    ensures CallsLast(w, w'')
  {
  }

  lemma GrowsStep(w: World, a: Action)
    requires Enabled(w, a)
    ensures Grows(w, Apply(w, a))
  {
    StreamsStep(w, a);
    ReadersGrowStep(w, a);
    CallsStep(w, a);
  }

  lemma {:induction false} RunGrows(ws: seq<World>, steps: seq<Action>, i: nat, j: nat)
    requires IsRun(ws, steps) && i <= j < |ws|
    ensures Grows(ws[i], ws[j])
    decreases j - i
  {
    if i == j {
    } else {
      RunGrows(ws, steps, i, j - 1);
      GrowsStep(ws[j - 1], steps[j - 1]);
      StreamsGrowOn(ws[i], ws[j - 1], ws[j]);
      ReadersGrowOn(ws[i], ws[j - 1], ws[j]);
      CallsLastOn(ws[i], ws[j - 1], ws[j]);
    }
  }

  // ----- theorems about whole runs -----

  /** No lost wakeup: a reader parked on an unset signal, still registered, has read
      everything on an open stream, or the call inside that stream's critical section has
      still to set that very signal. */
  lemma NoLostWakeup(ws: seq<World>, steps: seq<Action>, i: nat, r: ReaderRef)
    requires IsRun(ws, steps) && i < |ws| && r < |ws[i].readers|
    requires ws[i].readers[r].pc.Parked?
    ensures ReaderInRange(ws[i], ws[i].readers[r])
    ensures var w := ws[i]; var rd := w.readers[r]; var ts := w.streams[rd.stream];
      !w.flags[rd.signal] && rd.signal in ts.signals ==>
        || (|ts.events| <= rd.cursor && !ts.closed)
        || (exists t <- w.calls :: Inside(w.calls[t], rd.stream) && rd.signal in w.calls[t].todo)
  {
    RunInv(ws, steps, i);
    var rd := ws[i].readers[r];
    assert ReaderOk(ws[i], rd);
    var ts := ws[i].streams[rd.stream];
    if ts.holder.Some? && ts.holder.value in ws[i].calls
        && rd.signal in StillToSet(ws[i].calls[ts.holder.value], rd.stream) {
      assert Inside(ws[i].calls[ts.holder.value], rd.stream);
    }
  }

  /** Drain before close: `StreamClosed` reaches a reader that has not closed itself only
      when the stream is closed and the cursor is at its end; and from then on nothing is
      ever added there. */
  lemma DrainBeforeClose(ws: seq<World>, steps: seq<Action>, i: nat, j: nat, r: ReaderRef)
    requires IsRun(ws, steps) && i <= j < |ws| && r < |ws[i].readers|
    requires ws[i].readers[r].pc.Raised? && !ws[i].readers[r].closed
    ensures ReaderInRange(ws[i], ws[i].readers[r]) && |ws[i].streams| <= |ws[j].streams|
    ensures var rd := ws[i].readers[r];
      && ws[i].streams[rd.stream].closed
      && |ws[i].streams[rd.stream].events| <= rd.cursor
      && ws[j].streams[rd.stream].closed
      && ws[j].streams[rd.stream].events == ws[i].streams[rd.stream].events
  {
    RunInv(ws, steps, i);
    RunGrows(ws, steps, i, j);
    assert ReaderOk(ws[i], ws[i].readers[r]);
    assert StreamGrows(ws[i].streams[ws[i].readers[r].stream], ws[j].streams[ws[i].readers[r].stream]);
  }

  /** Exactly once and in order: at every moment a reader has returned precisely the events
      between its first cursor and its cursor, of the one stream object it subscribed to,
      and what it returned earlier is never taken back or reordered. */
  lemma DeliveredExactly(ws: seq<World>, steps: seq<Action>, i: nat, j: nat, r: ReaderRef)
    requires IsRun(ws, steps) && i <= j < |ws| && r < |ws[i].readers|
    ensures |ws[i].readers| <= |ws[j].readers| && ReaderInRange(ws[j], ws[j].readers[r])
    ensures var rd, rd' := ws[i].readers[r], ws[j].readers[r]; var events := ws[j].streams[rd'.stream].events;
      && rd'.stream == rd.stream && rd'.start == rd.start <= rd'.cursor
      && |rd'.delivered| == rd'.cursor - rd'.start
      && (rd'.start < rd'.cursor ==> rd'.cursor <= |events| && rd'.delivered == events[rd'.start..rd'.cursor])
      && rd.delivered <= rd'.delivered
  {
    RunInv(ws, steps, j);
    RunGrows(ws, steps, i, j);
    assert ReaderOk(ws[j], ws[j].readers[r]);
    assert ReaderGrows(ws[i].readers[r], ws[j].readers[r]);
  }

  /** A closed stream is never in the map, and two teams never share a stream. */
  lemma ClosedNeverMapped(ws: seq<World>, steps: seq<Action>, i: nat, team: TeamId)
    requires IsRun(ws, steps) && i < |ws| && team in ws[i].lookup
    ensures ws[i].lookup[team] < |ws[i].streams| && !ws[i].streams[ws[i].lookup[team]].closed
    ensures forall other <- ws[i].lookup :: ws[i].lookup[other] == ws[i].lookup[team] ==> other == team
  {
    RunInv(ws, steps, i);
    assert EntryOk(ws[i], team);
  }

  /** The append that returned `n` wrote the n-th event of its stream, which stays there for
      ever after. */
  lemma AppendedStays(ws: seq<World>, steps: seq<Action>, i: nat, j: nat, t: CallId)
    requires IsRun(ws, steps) && i <= j < |ws| && t in ws[i].calls && ws[i].calls[t].Appended?
    ensures var pc := ws[i].calls[t];
      && pc.stream < |ws[j].streams|
      && 1 <= pc.number <= |ws[j].streams[pc.stream].events|
      && ws[j].streams[pc.stream].events[pc.number - 1] == pc.msg
  {
    RunGrows(ws, steps, i, j);
    RunInv(ws, steps, j);
    assert AuthorOk(ws[j], t, ws[j].calls[t]);
  }

  /** Numbering is exact: each event of a stream was written by exactly one append call, and
      that call, alone among all calls, got the event's place counted from one. */
  lemma NumbersExact(ws: seq<World>, steps: seq<Action>, i: nat, o: StreamRef, n: nat)
    requires IsRun(ws, steps) && i < |ws| && o < |ws[i].streams| && 1 <= n <= |ws[i].streams[o].events|
    ensures exists t <- ws[i].calls :: Wrote(ws[i].calls[t], o, n)
    ensures forall t <- ws[i].calls, t' <- ws[i].calls ::
              Wrote(ws[i].calls[t], o, n) && Wrote(ws[i].calls[t'], o, n) ==> t == t'
  {
    RunInv(ws, steps, i);
    var w := ws[i];
    assert SlotsOk(w, o);
    var t := w.streams[o].authors[n - 1];
    assert t in w.calls && Wrote(w.calls[t], o, n);
    forall t' <- w.calls | Wrote(w.calls[t'], o, n) ensures t' == t { assert AuthorOk(w, t', w.calls[t']); }
  }

  /** `read_next` is never stuck at its index: whenever it is about to read `events[cursor]`,
      the cursor is inside the list, so the access cannot fail. */
  lemma FetchInBounds(ws: seq<World>, steps: seq<Action>, i: nat, r: ReaderRef)
    requires IsRun(ws, steps) && i < |ws| && r < |ws[i].readers| && ws[i].readers[r].pc.Fetch?
    ensures Enabled(ws[i], Read(r))
  {
    RunInv(ws, steps, i);
    assert ReaderOk(ws[i], ws[i].readers[r]);
  }

  /** Within one stream, numbers grow with time: an append that has not yet written when
      another one has returned `n` will, if it writes there at all, return more than `n`. */
  lemma LaterAppendLarger(ws: seq<World>, steps: seq<Action>, i: nat, j: nat, t: CallId, t': CallId)
    requires IsRun(ws, steps) && i <= j < |ws|
    requires t in ws[i].calls && ws[i].calls[t].Appended?
    requires t' in ws[i].calls ==> !IsAuthor(ws[i].calls[t'])
    requires t' in ws[j].calls && IsAuthor(ws[j].calls[t']) && ws[j].calls[t'].stream == ws[i].calls[t].stream
    ensures ws[j].calls[t'].number > ws[i].calls[t].number
  {
    RunInv(ws, steps, i);
    RunInv(ws, steps, j);
    RunGrows(ws, steps, i, j);
    var o := ws[i].calls[t].stream;
    assert AuthorOk(ws[i], t, ws[i].calls[t]);
    assert AuthorOk(ws[j], t', ws[j].calls[t']);
    assert StreamGrows(ws[i].streams[o], ws[j].streams[o]);
    assert SlotsOk(ws[i], o);
  }

  // ----- closing a reader wakes nobody -----

  /** No stream will ever signal `sig` again: it is registered nowhere and no call is about
      to set it. */
  ghost predicate Forgotten(w: World, sig: SignalRef) {
    && sig < |w.flags|
    && (forall o | 0 <= o < |w.streams| :: sig !in w.streams[o].signals)
    && (forall t <- w.calls :: IsSignalling(w.calls[t]) ==> sig !in w.calls[t].todo)
  }

  predicate IsSignalling(pc: Pc) { pc.AppendSignal? || pc.RemoveSignal? }

  /** No step of `close` sets any signal. */
  lemma CloseSetsNothing(w: World, t: CallId)
    requires Enabled(w, Run(t)) && (w.calls[t].CloseCheck? || w.calls[t].CloseMark? || w.calls[t].CloseLeave?)
    ensures Apply(w, Run(t)).flags == w.flags
  {
  }

  /** Once forgotten, a signal stays unset through every step, so a reader parked on it can
      leave `read_next` by its timeout alone, whoever closed it. */
  lemma OnlyTimeoutWakes(w: World, a: Action, r: ReaderRef)
    requires r < |w.readers| && ReaderInRange(w, w.readers[r]) && w.readers[r].pc.Parked?
    requires Forgotten(w, w.readers[r].signal) && !w.flags[w.readers[r].signal]
    requires Enabled(w, a) && a != Timeout(r)
    ensures var w' := Apply(w, a);
      && r < |w'.readers| && w'.readers[r].pc.Parked? && w'.readers[r].signal == w.readers[r].signal
      && Forgotten(w', w.readers[r].signal) && !w'.flags[w.readers[r].signal]
  {
    ForgottenStep(w, a, w.readers[r].signal);
  }

  lemma ForgottenStep(w: World, a: Action, sig: SignalRef)
    requires Forgotten(w, sig) && Enabled(w, a)
    ensures Forgotten(Apply(w, a), sig)
    ensures !w.flags[sig] ==> !Apply(w, a).flags[sig]
  {
  }

  lemma Extend(ws: seq<World>, steps: seq<Action>, a: Action) returns (ws': seq<World>, steps': seq<Action>)
    requires IsRun(ws, steps) && Enabled(ws[|steps|], a)
    ensures IsRun(ws', steps') && steps' == steps + [a] && ws'[|steps'|] == Apply(ws[|steps|], a)
  {
    ws', steps' := ws + [Apply(ws[|steps|], a)], steps + [a];
  }
}
