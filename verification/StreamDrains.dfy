/**
 What `read_next` owes its caller: a drain that begins when something is due, an event ahead of
 the cursor, a closed stream or the reader's own close, ends by answering it, in every phase.
 */
module StreamDrains {
  import opened Wrappers
  import opened StreamProtocol
  import opened StreamSafety

  /** The reader is inside one of its three drains. */
  predicate InDrain(pc: ReadPc) { pc.CheckSelf? || pc.TryAdvance? || pc.CheckClosed? || pc.TryAgain? || pc.Fetch? }

  /** An event is ahead of the cursor, or the stream or the reader itself is closed. */
  predicate SomethingDue(rd: Reader, ts: TeamStream) { rd.closed || ts.closed || rd.cursor < |ts.events| }

  /** What is due has not been missed: `n` events were returned before this drain. */
  ghost predicate Due(w: World, r: ReaderRef, n: nat) {
    && r < |w.readers| && ReaderInRange(w, w.readers[r])
    && var rd := w.readers[r];
    && var ts := w.streams[rd.stream];
    match rd.pc
    case CheckSelf(_) => |rd.delivered| == n && SomethingDue(rd, ts)
    case TryAdvance(_) => |rd.delivered| == n && (ts.closed || rd.cursor < |ts.events|)
    case CheckClosed(_) => |rd.delivered| == n && ts.closed
    case TryAgain => |rd.delivered| == n
    case Fetch => |rd.delivered| == n
    case Raised(_) => |rd.delivered| == n
    case Idle => |rd.delivered| == n + 1
    case _ => false
  }

  lemma DueOwn(w: World, r: ReaderRef, n: nat)
    requires Due(w, r, n) && InDrain(w.readers[r].pc) && Enabled(w, Read(r))
    ensures Due(Apply(w, Read(r)), r, n)
  {
  }

  /** All that anyone else's step can do to a reader inside a drain is close it. */
  lemma OtherStep(w: World, a: Action, r: ReaderRef)
    requires Enabled(w, a) && r < |w.readers| && a != Read(r) && a != Timeout(r)
    ensures r < |Apply(w, a).readers|
    ensures var rd, rd' := w.readers[r], Apply(w, a).readers[r];
            rd' == rd.(closed := rd'.closed) && (rd.closed ==> rd'.closed)
  {
  }

  lemma DueOther(w: World, a: Action, r: ReaderRef, n: nat)
    requires Due(w, r, n) && InDrain(w.readers[r].pc) && Enabled(w, a) && a != Read(r)
    requires StreamsGrow(w, Apply(w, a)) && |w.flags| <= |Apply(w, a).flags|
    ensures Due(Apply(w, a), r, n)
  {
    OtherStep(w, a, r);
    var o := w.readers[r].stream;
    assert StreamGrows(w.streams[o], Apply(w, a).streams[o]);
  }

  lemma FlagsStay(w: World, a: Action)
    requires Enabled(w, a)
    ensures |w.flags| <= |Apply(w, a).flags|
  {
  }

  lemma DueStep(w: World, a: Action, r: ReaderRef, n: nat)
    requires Due(w, r, n) && InDrain(w.readers[r].pc) && Enabled(w, a)
    ensures Due(Apply(w, a), r, n)
  {
    if a == Read(r) {
      DueOwn(w, r, n);
    } else {
      StreamsStep(w, a);
      FlagsStay(w, a);
      DueOther(w, a, r, n);
    }
  }

  ghost predicate DrainsAt(w: World, r: ReaderRef) { r < |w.readers| && InDrain(w.readers[r].pc) }

  lemma {:induction false} DueRun(ws: seq<World>, steps: seq<Action>, i: nat, j: nat, r: ReaderRef, n: nat)
    requires IsRun(ws, steps) && i <= j < |ws| && Due(ws[i], r, n)
    requires forall k | i <= k < j :: DrainsAt(ws[k], r)
    ensures Due(ws[j], r, n)
    decreases j - i
  {
    if i == j {
    } else {
      DueRun(ws, steps, i, j - 1, r, n);
      assert DrainsAt(ws[j - 1], r);
      DueStep(ws[j - 1], steps[j - 1], r, n);
    }
  }

  /** A drain that begins when something is due, and is over, has returned one more event or raised
      `StreamClosed`. It has not gone on to clear the signal, to wait or to answer "nothing". */
  lemma DrainAnswers(ws: seq<World>, steps: seq<Action>, i: nat, j: nat, r: ReaderRef)
    requires IsRun(ws, steps) && i <= j < |ws| && r < |ws[i].readers| && ws[i].readers[r].pc.CheckSelf?
    requires forall k | i <= k < j :: DrainsAt(ws[k], r)
    ensures ReaderInRange(ws[i], ws[i].readers[r]) && r < |ws[j].readers|
    ensures SomethingDue(ws[i].readers[r], ws[i].streams[ws[i].readers[r].stream]) ==>
              || InDrain(ws[j].readers[r].pc)
              || (ws[j].readers[r].pc.Raised? && |ws[j].readers[r].delivered| == |ws[i].readers[r].delivered|)
              || (ws[j].readers[r].pc.Idle? && |ws[j].readers[r].delivered| == |ws[i].readers[r].delivered| + 1)
  {
    RunInv(ws, steps, i);
    assert ReaderOk(ws[i], ws[i].readers[r]);
    RunGrows(ws, steps, i, j);
    if SomethingDue(ws[i].readers[r], ws[i].streams[ws[i].readers[r].stream]) {
      DueRun(ws, steps, i, j, r, |ws[i].readers[r].delivered|);
    }
  }

  /** So a drain that ends with nothing, whichever of the three it is, began on an open stream, for
      an open reader that had read it all. */
  lemma NothingMeansOpen(ws: seq<World>, steps: seq<Action>, i: nat, j: nat, r: ReaderRef)
    requires IsRun(ws, steps) && i <= j < |ws| && r < |ws[i].readers| && ws[i].readers[r].pc.CheckSelf?
    requires (forall k | i <= k < j :: DrainsAt(ws[k], r)) && r < |ws[j].readers|
    requires var pc := ws[j].readers[r].pc;
             || pc.ClearSignal? || pc.Parked?
             || (pc.Idle? && |ws[j].readers[r].delivered| == |ws[i].readers[r].delivered|)
    ensures ReaderInRange(ws[i], ws[i].readers[r])
    ensures var rd := ws[i].readers[r]; var ts := ws[i].streams[rd.stream];
            !rd.closed && !ts.closed && |ts.events| <= rd.cursor
  {
    DrainAnswers(ws, steps, i, j, r);
  }

  /** A reader that was closed before a drain raises there, without returning anything more. */
  lemma ClosedReaderRaises(w: World, r: ReaderRef)
    requires Enabled(w, Read(r)) && w.readers[r].pc.CheckSelf? && w.readers[r].closed
    ensures Apply(w, Read(r)).readers[r] == w.readers[r].(pc := Raised(true))
  {
  }

  /** The three drains come in turn. Between the first and the second the signal is unset; the third
      follows the wait, however that ends. */
  lemma PhasesInTurn(w: World, a: Action, r: ReaderRef)
    requires Enabled(w, a) && r < |w.readers| && ReaderInRange(w, w.readers[r])
    requires r < |Apply(w, a).readers| && Apply(w, a).readers[r].pc != w.readers[r].pc
    ensures var w' := Apply(w, a); var rd, rd' := w.readers[r], w'.readers[r];
            match rd.pc
            case Idle => rd'.pc == CheckSelf(First)
            case Raised(_) => rd'.pc == CheckSelf(First)
            case ClearSignal => rd'.pc == CheckSelf(Recheck) && rd.signal < |w'.flags| && !w'.flags[rd.signal]
            case Parked => rd'.pc == CheckSelf(Last)
            case CheckClosed(First) => rd'.pc == ClearSignal || rd'.pc == TryAgain
            case CheckClosed(Recheck) => rd'.pc == Parked || rd'.pc == TryAgain
            case CheckClosed(Last) => rd'.pc == Idle || rd'.pc == TryAgain
            case TryAdvance(phase) => rd'.pc == Fetch || rd'.pc == CheckClosed(phase)
            case CheckSelf(phase) => rd'.pc == Raised(true) || rd'.pc == TryAdvance(phase)
            case TryAgain => rd'.pc == Fetch || rd'.pc == Raised(false)
            case Fetch => rd'.pc == Idle
  {
    if a != Read(r) && a != Timeout(r) { OtherStep(w, a, r); }
  }

  /** And no access leaves a reader where it was, nor does a wait that runs out. */
  lemma ReadMoves(w: World, a: Action, r: ReaderRef)
    requires Enabled(w, a) && r < |w.readers| && (a == Read(r) || a == Timeout(r))
    ensures r < |Apply(w, a).readers| && Apply(w, a).readers[r].pc != w.readers[r].pc
  {
  }
}
