/** What closing a reader does, and does not do, to a call of `read_next` parked on its signal. */
module StreamClosing {
  import opened Wrappers
  import opened StreamProtocol
  import opened StreamSafety

  /** A reader's signal is registered on its own stream or nowhere. */
  ghost predicate HomeOk(w: World) {
    forall r, o | 0 <= r < |w.readers| && 0 <= o < |w.streams| && w.readers[r].signal in w.streams[o].signals ::
      o == w.readers[r].stream
  }

  lemma HomeStep(w: World, a: Action)
    requires Inv(w) && HomeOk(w) && Enabled(w, a)
    ensures HomeOk(Apply(w, a))
  {
    var w' := Apply(w, a);
    forall r, o | 0 <= r < |w'.readers| && 0 <= o < |w'.streams| && w'.readers[r].signal in w'.streams[o].signals
      ensures o == w'.readers[r].stream
    {
      if r < |w.readers| {
        assert ReaderOk(w, w.readers[r]);
        SameReader(w, a, r);
        SignalsShrink(w, a, o, w.readers[r].signal);
      } else {
        NewReader(w, a, r, o);
      }
    }
  }

  lemma SameReader(w: World, a: Action, r: ReaderRef)
    requires Enabled(w, a) && r < |w.readers|
    ensures r < |Apply(w, a).readers|
    ensures Apply(w, a).readers[r].signal == w.readers[r].signal && Apply(w, a).readers[r].stream == w.readers[r].stream
  {
  }

  /** No step registers a signal that exists already. */
  lemma SignalsShrink(w: World, a: Action, o: StreamRef, sig: SignalRef)
    requires Enabled(w, a) && o < |Apply(w, a).streams| && sig < |w.flags| && sig in Apply(w, a).streams[o].signals
    ensures o < |w.streams| && sig in w.streams[o].signals
  {
  }

  lemma NewReader(w: World, a: Action, r: ReaderRef, o: StreamRef)
    requires ObjectsOk(w) && Enabled(w, a) && |w.readers| <= r < |Apply(w, a).readers|
    requires o < |Apply(w, a).streams| && Apply(w, a).readers[r].signal in Apply(w, a).streams[o].signals
    ensures o == Apply(w, a).readers[r].stream
  {
  }

  lemma {:induction false} RunHome(ws: seq<World>, steps: seq<Action>, i: nat)
    requires IsRun(ws, steps) && i < |ws|
    ensures HomeOk(ws[i])
  {
    if i == 0 {
    } else {
      RunHome(ws, steps, i - 1);
      RunInv(ws, steps, i - 1);
      HomeStep(ws[i - 1], steps[i - 1]);
    }
  }

  /** The signal exists and is registered on no stream. */
  ghost predicate Detached(w: World, sig: SignalRef) {
    sig < |w.flags| && forall o | 0 <= o < |w.streams| :: sig !in w.streams[o].signals
  }

  lemma DetachedStep(w: World, a: Action, sig: SignalRef)
    requires Enabled(w, a) && Detached(w, sig)
    ensures Detached(Apply(w, a), sig)
  {
    forall o | 0 <= o < |Apply(w, a).streams| ensures sig !in Apply(w, a).streams[o].signals {
      if sig in Apply(w, a).streams[o].signals { SignalsShrink(w, a, o, sig); }
    }
    ObjectsStay(w, a);
  }

  lemma ObjectsStay(w: World, a: Action)
    requires Enabled(w, a)
    ensures |w.flags| <= |Apply(w, a).flags| && |w.streams| <= |Apply(w, a).streams|
  {
  }

  lemma LeaveDetaches(w: World, t: CallId)
    requires Inv(w) && HomeOk(w) && Enabled(w, Run(t)) && w.calls[t].CloseLeave?
    ensures Detached(Apply(w, Run(t)), w.readers[w.calls[t].reader].signal)
  {
    var rd := w.readers[w.calls[t].reader];
    assert ReaderOk(w, rd);
    var w' := Apply(w, Run(t));
    assert w'.streams[rd.stream].signals == w.streams[rd.stream].signals - {rd.signal};
    assert forall o | 0 <= o < |w.streams| && o != rd.stream :: w'.streams[o] == w.streams[o];
  }

  /** Once `close` has left the stream's signals, the reader's signal is registered nowhere, at
      every later moment of the run. */
  lemma {:induction false} ClosedIsDetached(ws: seq<World>, steps: seq<Action>, i: nat, j: nat, t: CallId)
    requires IsRun(ws, steps) && i < j < |ws| && steps[i] == Run(t) && ws[i].calls[t].CloseLeave?
    ensures ws[i].calls[t].reader < |ws[i].readers|
    ensures Detached(ws[j], ws[i].readers[ws[i].calls[t].reader].signal)
    decreases j
  {
    if j == i + 1 {
      RunInv(ws, steps, i);
      RunHome(ws, steps, i);
      LeaveDetaches(ws[i], t);
    } else {
      ClosedIsDetached(ws, steps, i, j - 1, t);
      DetachedStep(ws[j - 1], steps[j - 1], ws[i].readers[ws[i].calls[t].reader].signal);
    }
  }

  /** Parked on a signal that is unset, registered nowhere and in no call's loop. */
  ghost predicate ParkedForgotten(w: World, r: ReaderRef) {
    && r < |w.readers| && ReaderInRange(w, w.readers[r]) && w.readers[r].pc.Parked?
    && Forgotten(w, w.readers[r].signal) && !w.flags[w.readers[r].signal]
  }

  lemma ParkedStep(w: World, a: Action, r: ReaderRef)
    requires ParkedForgotten(w, r) && Enabled(w, a) && a != Timeout(r)
    ensures ParkedForgotten(Apply(w, a), r)
  {
    OnlyTimeoutWakes(w, a, r);
    SameReader(w, a, r);
    ObjectsStay(w, a);
  }

  lemma InRangeAt(ws: seq<World>, steps: seq<Action>, i: nat, r: ReaderRef)
    requires IsRun(ws, steps) && i < |ws| && r < |ws[i].readers|
    ensures ReaderInRange(ws[i], ws[i].readers[r])
  {
    RunInv(ws, steps, i);
    assert ReaderOk(ws[i], ws[i].readers[r]);
  }

  /** Such a reader stays parked until its own timeout, through any run. */
  lemma {:induction false} ParkedUntilTimeout(ws: seq<World>, steps: seq<Action>, i: nat, j: nat, r: ReaderRef)
    requires IsRun(ws, steps) && i <= j < |ws| && ParkedForgotten(ws[i], r)
    requires forall k | i <= k < j :: steps[k] != Timeout(r)
    ensures ParkedForgotten(ws[j], r)
    decreases j
  {
    if i == j {
    } else {
      ParkedUntilTimeout(ws, steps, i, j - 1, r);
      ParkedStep(ws[j - 1], steps[j - 1], r);
    }
  }

  /** The moment a closing call leaves the signals of the stream its reader is parked on, with the
      signal unset and in no call's loop. */
  ghost predicate LeavesParked(w: World, a: Action, r: ReaderRef) {
    && a.Run? && a.t in w.calls && w.calls[a.t] == CloseLeave(r)
    && r < |w.readers| && ReaderInRange(w, w.readers[r]) && w.readers[r].pc.Parked?
    && !w.flags[w.readers[r].signal]
    && forall d <- w.calls :: IsSignalling(w.calls[d]) ==> w.readers[r].signal !in w.calls[d].todo
  }

  /** Closing a parked reader leaves it parked: unless its signal was set before `close` left the
      stream, or a call already inside its critical section had still to set it, only its own
      timeout takes it out of `read_next`. */
  lemma CloseLeavesParked(ws: seq<World>, steps: seq<Action>, i: nat, j: nat, r: ReaderRef)
    requires IsRun(ws, steps) && i < j < |ws| && LeavesParked(ws[i], steps[i], r)
    requires forall k | i < k < j :: steps[k] != Timeout(r)
    ensures r < |ws[j].readers| && ws[j].readers[r].pc.Parked?
  {
    var t := steps[i].t;
    ClosedIsDetached(ws, steps, i, i + 1, t);
    LeaveKeepsRest(ws[i], t);
    InRangeAt(ws, steps, i + 1, r);
    ParkedUntilTimeout(ws, steps, i + 1, j, r);
  }

  lemma LeaveKeepsRest(w: World, t: CallId)
    requires Enabled(w, Run(t)) && w.calls[t].CloseLeave?
    ensures var w' := Apply(w, Run(t));
            w'.readers == w.readers && w'.flags == w.flags && w'.calls == w.calls[t := Closed]
  {
  }
}
