/** What each call of the stream has done once it is over, whatever went on meanwhile. */
module StreamCalls {
  import opened Wrappers
  import opened StreamProtocol
  import opened StreamSafety

  /** The action is a step of this call. */
  predicate ActsAs(a: Action, t: CallId) {
    match a
    case Start(t', _) => t' == t
    case Run(t') => t' == t
    case SetSignal(t', _) => t' == t
    case _ => false
  }

  lemma CallUntouched(w: World, a: Action, t: CallId)
    requires Enabled(w, a) && t in w.calls && !ActsAs(a, t)
    ensures t in Apply(w, a).calls && Apply(w, a).calls[t] == w.calls[t]
  {
  }

  // ----- append -----

  /** An append is refused exactly by a closed stream, which stays as it is; on an open one the event
      goes last, and every reader registered then is to be signalled. */
  lemma AppendDecides(w: World, t: CallId)
    requires Enabled(w, Run(t)) && w.calls[t].AppendWrite?
    ensures var w', pc := Apply(w, Run(t)), w.calls[t]; var ts := w.streams[pc.stream];
            if ts.closed then w'.calls[t] == AppendRefused(pc.stream) && w'.streams == w.streams
            else
              && |w'.streams| == |w.streams|
              && w'.streams[pc.stream].events == ts.events + [pc.msg]
              && w'.calls[t] == AppendSignal(pc.team, pc.stream, pc.msg, |ts.events| + 1, ts.signals)
  {
  }

  /** An append of this message to stream `o`: to be written, written, or refused by a closed stream. */
  ghost predicate AppendsTo(w: World, t: CallId, o: StreamRef, msg: Message) {
    && t in w.calls && o < |w.streams|
    && match w.calls[t]
       case AppendWrite(_, o', m) => o' == o && m == msg
       case AppendSignal(_, o', m, _, _) => o' == o && m == msg
       case Appended(_, o', m, _) => o' == o && m == msg
       case AppendRefused(o') => o' == o && w.streams[o].closed
       case _ => false
  }

  lemma AppendOwn(w: World, a: Action, t: CallId, o: StreamRef, msg: Message)
    requires AppendsTo(w, t, o, msg) && Enabled(w, a) && ActsAs(a, t)
    ensures AppendsTo(Apply(w, a), t, o, msg)
  {
  }

  lemma AppendStep(w: World, a: Action, t: CallId, o: StreamRef, msg: Message)
    requires AppendsTo(w, t, o, msg) && Enabled(w, a) && StreamsGrow(w, Apply(w, a))
    ensures AppendsTo(Apply(w, a), t, o, msg)
  {
    assert StreamGrows(w.streams[o], Apply(w, a).streams[o]);
    if ActsAs(a, t) { AppendOwn(w, a, t, o, msg); } else { CallUntouched(w, a, t); }
  }

  lemma {:induction false} AppendRun(ws: seq<World>, steps: seq<Action>, i: nat, j: nat, t: CallId,
          o: StreamRef, msg: Message)
    requires IsRun(ws, steps) && i <= j < |ws| && AppendsTo(ws[i], t, o, msg)
    ensures AppendsTo(ws[j], t, o, msg)
    decreases j - i
  {
    if i == j {
    } else {
      AppendRun(ws, steps, i, j - 1, t, o, msg);
      StreamsStep(ws[j - 1], steps[j - 1]);
      AppendStep(ws[j - 1], steps[j - 1], t, o, msg);
    }
  }

  /** A finished append has written the message it was given to the stream its lookup found, or was
      refused by that stream, closed by then. */
  lemma AppendedAsAsked(ws: seq<World>, steps: seq<Action>, i: nat, j: nat, t: CallId)
    requires IsRun(ws, steps) && i < j < |ws| && steps[i] == Run(t) && ws[i].calls[t].AppendLookup?
    ensures ws[i].calls[t].team in ws[i + 1].lookup
    ensures AppendsTo(ws[j], t, ws[i + 1].lookup[ws[i].calls[t].team], ws[i].calls[t].msg)
  {
    var pc := ws[i].calls[t];
    RunInv(ws, steps, i);
    if pc.team in ws[i].lookup { assert EntryOk(ws[i], pc.team); }
    AppendRun(ws, steps, i + 1, j, t, ws[i + 1].lookup[pc.team], pc.msg);
  }

  // ----- remove -----

  /** A `remove` of a team without an entry is over at once and touches nothing. */
  lemma RemoveUnknown(w: World, t: CallId)
    requires Enabled(w, Run(t)) && w.calls[t].RemoveLookup? && w.calls[t].team !in w.lookup
    ensures Apply(w, Run(t)) == w.(calls := w.calls[t := Removed])
  {
  }

  /** Where a call of `remove` is with the stream it popped: once past its mark, the stream is closed. */
  ghost predicate RemovesStream(w: World, t: CallId, o: StreamRef) {
    && t in w.calls && o < |w.streams|
    && match w.calls[t]
       case RemoveMark(o') => o' == o
       case RemoveSignal(o', _) => o' == o && w.streams[o].closed
       case Removed => w.streams[o].closed
       case _ => false
  }

  lemma RemoveStep(w: World, a: Action, t: CallId, o: StreamRef)
    requires RemovesStream(w, t, o) && Enabled(w, a) && StreamsGrow(w, Apply(w, a))
    ensures RemovesStream(Apply(w, a), t, o)
  {
    assert StreamGrows(w.streams[o], Apply(w, a).streams[o]);
    if ActsAs(a, t) { RemoveOwn(w, a, t, o); } else { CallUntouched(w, a, t); }
  }

  lemma RemoveOwn(w: World, a: Action, t: CallId, o: StreamRef)
    requires RemovesStream(w, t, o) && Enabled(w, a) && ActsAs(a, t)
    ensures RemovesStream(Apply(w, a), t, o)
  {
  }

  lemma {:induction false} RemoveRun(ws: seq<World>, steps: seq<Action>, i: nat, j: nat, t: CallId, o: StreamRef)
    requires IsRun(ws, steps) && i <= j < |ws| && RemovesStream(ws[i], t, o)
    ensures RemovesStream(ws[j], t, o)
    decreases j - i
  {
    if i == j {
    } else {
      RemoveRun(ws, steps, i, j - 1, t, o);
      StreamsStep(ws[j - 1], steps[j - 1]);
      RemoveStep(ws[j - 1], steps[j - 1], t, o);
    }
  }

  /** A `remove` takes the team's entry out at its lookup, and by the time it is over it has closed
      the stream that the entry named. */
  lemma RemovedIsClosed(ws: seq<World>, steps: seq<Action>, i: nat, j: nat, t: CallId, team: TeamId)
    requires IsRun(ws, steps) && i < j < |ws| && steps[i] == Run(t) && ws[i].calls[t] == RemoveLookup(team)
    requires team in ws[i].lookup
    ensures ws[i + 1].lookup == ws[i].lookup - {team}
    ensures t in ws[j].calls && ws[i].lookup[team] < |ws[j].streams|
    ensures ws[j].calls[t].Removed? ==> ws[j].streams[ws[i].lookup[team]].closed
  {
    RunInv(ws, steps, i);
    assert EntryOk(ws[i], team);
    RemoveRun(ws, steps, i + 1, j, t, ws[i].lookup[team]);
  }

  // ----- subscribe -----

  /** A subscription to stream `o` from this cursor: asked for, made as asked, or refused. */
  ghost predicate SubscribesTo(w: World, t: CallId, o: StreamRef, cursor: nat) {
    && t in w.calls && o < |w.streams|
    && match w.calls[t]
       case SubscribeJoin(o', cursor') => o' == o && cursor' == cursor
       case Subscribed(r) => r < |w.readers| && w.readers[r].stream == o && w.readers[r].start == cursor
       case SubscribeRefused => w.streams[o].closed
       case _ => false
  }

  lemma SubscribeStep(w: World, a: Action, t: CallId, o: StreamRef, cursor: nat)
    requires SubscribesTo(w, t, o, cursor) && Enabled(w, a) && Grows(w, Apply(w, a))
    ensures SubscribesTo(Apply(w, a), t, o, cursor)
  {
    assert StreamGrows(w.streams[o], Apply(w, a).streams[o]);
    if ActsAs(a, t) {
      SubscribeOwn(w, a, t, o, cursor);
    } else {
      CallUntouched(w, a, t);
      if w.calls[t].Subscribed? {
        var r := w.calls[t].reader;
        assert ReaderGrows(w.readers[r], Apply(w, a).readers[r]);
      }
    }
  }

  lemma SubscribeOwn(w: World, a: Action, t: CallId, o: StreamRef, cursor: nat)
    requires SubscribesTo(w, t, o, cursor) && Enabled(w, a) && ActsAs(a, t)
    ensures SubscribesTo(Apply(w, a), t, o, cursor)
  {
    if a.Run? { JoinMakes(w, t); }
  }

  /** On an open stream a new reader starts at the cursor asked for, with a signal of its own that is
      registered and unset; a closed stream refuses it, and nothing is made. */
  lemma JoinMakes(w: World, t: CallId)
    requires Enabled(w, Run(t)) && w.calls[t].SubscribeJoin?
    ensures var w', pc := Apply(w, Run(t)), w.calls[t];
            if w.streams[pc.stream].closed then w' == w.(calls := w.calls[t := SubscribeRefused])
            else
              && w'.calls[t] == Subscribed(|w.readers|)
              && w'.readers == w.readers + [Reader(pc.stream, |w.flags|, pc.cursor, pc.cursor, false, Idle, [])]
              && w'.flags == w.flags + [false]
              && |w'.streams| == |w.streams|
              && w'.streams[pc.stream].signals == w.streams[pc.stream].signals + {|w.flags|}
  {
  }

  lemma {:induction false} SubscribeRun(ws: seq<World>, steps: seq<Action>, i: nat, j: nat, t: CallId,
          o: StreamRef, cursor: nat)
    requires IsRun(ws, steps) && i <= j < |ws| && SubscribesTo(ws[i], t, o, cursor)
    ensures SubscribesTo(ws[j], t, o, cursor)
    decreases j - i
  {
    if i == j {
    } else {
      SubscribeRun(ws, steps, i, j - 1, t, o, cursor);
      GrowsStep(ws[j - 1], steps[j - 1]);
      SubscribeStep(ws[j - 1], steps[j - 1], t, o, cursor);
    }
  }

  /** A finished subscription is to the stream its lookup found, from the cursor it asked for; and it
      is refused only by a closed stream. */
  lemma SubscribedAsAsked(ws: seq<World>, steps: seq<Action>, i: nat, j: nat, t: CallId)
    requires IsRun(ws, steps) && i < j < |ws| && steps[i] == Run(t) && ws[i].calls[t].SubscribeLookup?
    ensures var team := ws[i].calls[t].team;
            team in ws[i + 1].lookup && (team in ws[i].lookup ==> ws[i + 1].lookup[team] == ws[i].lookup[team])
    ensures var pc := ws[i].calls[t]; var o := ws[i + 1].lookup[pc.team];
            && t in ws[j].calls && o < |ws[j].streams|
            && (ws[j].calls[t].Subscribed? ==>
                  var r := ws[j].calls[t].reader;
                  r < |ws[j].readers| && ws[j].readers[r].stream == o && ws[j].readers[r].start == pc.cursor)
            && (ws[j].calls[t].SubscribeRefused? ==> ws[j].streams[o].closed)
  {
    var pc := ws[i].calls[t];
    RunInv(ws, steps, i);
    if pc.team in ws[i].lookup { assert EntryOk(ws[i], pc.team); }
    SubscribeRun(ws, steps, i + 1, j, t, ws[i + 1].lookup[pc.team], pc.cursor);
  }

  // ----- close -----

  /** Where a call of `close` is with its reader: once past its mark, the reader is closed. */
  ghost predicate ClosesReader(w: World, t: CallId, r: ReaderRef) {
    && t in w.calls && r < |w.readers|
    && match w.calls[t]
       case CloseCheck(r') => r' == r
       case CloseMark(r') => r' == r
       case CloseLeave(r') => r' == r && w.readers[r].closed
       case Closed => w.readers[r].closed
       case _ => false
  }

  /** A `close` of a closed reader is over at once and touches nothing. */
  lemma CloseOnce(w: World, t: CallId)
    requires Enabled(w, Run(t)) && w.calls[t].CloseCheck? && w.readers[w.calls[t].reader].closed
    ensures Apply(w, Run(t)) == w.(calls := w.calls[t := Closed])
  {
  }

  lemma CloseOwn(w: World, a: Action, t: CallId, r: ReaderRef)
    requires ClosesReader(w, t, r) && Enabled(w, a) && ActsAs(a, t)
    ensures ClosesReader(Apply(w, a), t, r)
  {
  }

  lemma CloseStep(w: World, a: Action, t: CallId, r: ReaderRef)
    requires ClosesReader(w, t, r) && Enabled(w, a) && Grows(w, Apply(w, a))
    ensures ClosesReader(Apply(w, a), t, r)
  {
    assert ReaderGrows(w.readers[r], Apply(w, a).readers[r]);
    if ActsAs(a, t) { CloseOwn(w, a, t, r); } else { CallUntouched(w, a, t); }
  }

  /** A `close` that is over has closed its reader, for good. */
  lemma {:induction false} ClosedByClose(ws: seq<World>, steps: seq<Action>, i: nat, j: nat, t: CallId, r: ReaderRef)
    requires IsRun(ws, steps) && i <= j < |ws| && t in ws[i].calls && ws[i].calls[t] == CloseCheck(r)
    requires r < |ws[i].readers|
    ensures ClosesReader(ws[j], t, r)
    decreases j - i
  {
    if i == j {
    } else {
      ClosedByClose(ws, steps, i, j - 1, t, r);
      GrowsStep(ws[j - 1], steps[j - 1]);
      CloseStep(ws[j - 1], steps[j - 1], t, r);
    }
  }
}
