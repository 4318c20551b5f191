/**
 The in-memory event stream in its own form: shared objects whose methods update
 their fields. Each critical section is one method. Between two accesses that
 another thread can separate, `Others` stands for whatever the other threads did:
 its callers learn only that streams grew and closed streams stayed as they were,
 which StreamSafety proves of every step of every thread.
 */
module LocalEventStream {
  import opened Wrappers
  import opened StreamProtocol

  /** From one moment to a later one, with any writers at work in between. */
  predicate Grew(events: seq<Message>, closed: bool, events': seq<Message>, closed': bool) {
    events <= events' && (closed ==> closed' && events' == events)
  }

  class Signal {
    var isSet: bool
    constructor () ensures !isSet { isSet := false; }
  }

  class TeamEvents {
    var events: seq<Message>
    var signals: set<Signal>
    var closed: bool

    constructor ()
      ensures events == [] && signals == {} && !closed
    {
      events, signals, closed := [], {}, false;
    }

    method SetAll()
      modifies signals
      ensures forall sig <- signals :: sig.isSet
    {
      var todo := signals;
      while todo != {}
        invariant todo <= signals
        invariant forall sig <- signals - todo :: sig.isSet
        decreases todo
      {
        var sig :| sig in todo;
        sig.isSet := true;
        todo := todo - {sig};
      }
    }

    /** `append`'s critical section: refused on a closed stream, else the event is last, the
        answer is its place and every reader is signalled. */
    method Write(event: Message) returns (number: int)
      modifies this`events, signals
      ensures old(closed) ==> number == -1 && events == old(events) && unchanged(signals)
      ensures !old(closed) ==> events == old(events) + [event] && number == |events|
      ensures !old(closed) ==> forall sig <- signals :: sig.isSet
    {
      if closed { return -1; }
      events := events + [event];
      number := |events|;
      SetAll();
    }

    /** `remove`'s critical section. What was written stays. */
    method MarkClosed()
      modifies this`closed, signals
      ensures closed && forall sig <- signals :: sig.isSet
    {
      closed := true;
      SetAll();
    }

    /** `subscribe`'s critical section: false when it raises `StreamClosed`. */
    method Join(signal: Signal) returns (joined: bool)
      modifies this`signals
      ensures joined == !old(closed)
      ensures signals == if joined then old(signals) + {signal} else old(signals)
    {
      if closed { return false; }
      signals := signals + {signal};
      joined := true;
    }
  }

  /** Where a drain of each phase leads when it has nothing to give. */
  function AfterNothing(phase: Phase): ReadPc {
    match phase case First => ClearSignal case Recheck => Parked case Last => Idle
  }

  /** How a call of `read_next` ends. */
  datatype Next = Event(event: Message) | Nothing | StreamClosed

  /**
   A reader, with the next access of `read_next` and what it has returned kept as history. Each
   access that another thread can observe is one method, and each is a step of the protocol's
   reader (`StreamProtocol.Advance`), so `ReadNext` takes the protocol's steps in its order: an
   access left out, or out of turn, leaves `pc` where no later access may run.
   */
  class LocalStreamReader {
    const stream: TeamEvents
    const signal: Signal
    var cursor: nat
    var closed: bool
    ghost var pc: ReadPc
    ghost var delivered: seq<Message>

    constructor (stream: TeamEvents, signal: Signal, cursor: nat)
      ensures this.stream == stream && this.signal == signal && this.cursor == cursor && !closed
      ensures pc == Idle && delivered == []
    {
      this.stream, this.signal, this.cursor, this.closed := stream, signal, cursor, false;
      pc, delivered := Idle, [];
    }

    /** This reader as the protocol sees it; its references are the protocol's own. */
    ghost function View(): Reader
      reads this
    {
      Reader(0, 0, 0, cursor, closed, pc, delivered)
    }

    ghost function StreamView(): TeamStream
      reads stream
    {
      TeamStream(stream.events, {}, None, stream.closed, [])
    }

    /** One access of the protocol's reader, on the stream as it is. */
    twostate predicate Stepped()
      reads this, stream
    {
      && (old(pc.Fetch?) ==> old(cursor) < |old(stream.events)|)
      && View() == StreamProtocol.Advance(old(View()), old(StreamView()))
    }

    method Begin()
      requires pc == Idle || pc.Raised?
      modifies this`pc
      ensures Stepped() && pc == CheckSelf(First)
    {
      pc := CheckSelf(First);
    }

    method SelfClosed() returns (answer: bool)
      requires pc.CheckSelf?
      modifies this`pc
      ensures Stepped() && answer == closed
    {
      answer := closed;
      pc := if closed then Raised(true) else TryAdvance(pc.phase);
    }

    method HasNext() returns (answer: bool)
      requires pc.TryAdvance? || pc.TryAgain?
      modifies this`pc
      ensures Stepped() && answer == (cursor < |stream.events|)
    {
      answer := cursor < |stream.events|;
      pc := if answer then Fetch else if pc.TryAgain? then Raised(false) else CheckClosed(pc.phase);
    }

    method Take() returns (event: Message)
      requires pc.Fetch? && cursor < |stream.events|
      modifies this
      ensures Stepped() && event == stream.events[old(cursor)]
    {
      event := stream.events[cursor];
      cursor, delivered, pc := cursor + 1, delivered + [event], Idle;
    }

    method StreamIsClosed() returns (answer: bool)
      requires pc.CheckClosed?
      modifies this`pc
      ensures Stepped() && answer == stream.closed
    {
      answer := stream.closed;
      pc := StreamProtocol.Advance(View(), StreamView()).pc;
    }

    method Clear()
      requires pc == ClearSignal
      modifies this`pc, signal
      ensures Stepped() && !signal.isSet
    {
      signal.isSet := false;
      pc := CheckSelf(Recheck);
    }

    /** `_signal.wait` returns for the signal, or for the timeout. */
    method Wait()
      requires pc == Parked
      modifies this`pc
      ensures Stepped() && pc == CheckSelf(Last)
    {
      pc := CheckSelf(Last);
    }

    /** Any number of steps of other threads: writers, removers, and this reader's closer. */
    method Others()
      modifies stream, signal, this`closed
      ensures Grew(old(stream.events), old(stream.closed), stream.events, stream.closed)
      ensures old(closed) ==> closed
    {
    }

    /** What a call does to its caller, with other threads at work throughout: an event is the
        one at the old cursor; `StreamClosed` means this reader was closed, or the stream is
        closed and drained; and the cursor moves for an event alone. */
    ghost predicate Delivered(next: Next, cursor0: nat, delivered0: seq<Message>)
      reads this, stream
    {
      match next
      case Event(m) =>
        && cursor == cursor0 + 1 && delivered == delivered0 + [m] && cursor0 < |stream.events|
        && m == stream.events[cursor0]
      case Nothing => cursor == cursor0 && delivered == delivered0
      case StreamClosed =>
        cursor == cursor0 && delivered == delivered0 && (closed || (stream.closed && |stream.events| <= cursor))
    }

    method Advance() returns (event: Option<Message>)
      requires pc.TryAdvance? || pc.TryAgain?
      modifies stream, signal, this
      ensures Grew(old(stream.events), old(stream.closed), stream.events, stream.closed)
      ensures old(closed) ==> closed
      ensures event.Some? ==> pc == Idle && Delivered(Event(event.value), old(cursor), old(delivered))
      ensures event.None? ==> Delivered(Nothing, old(cursor), old(delivered)) && |old(stream.events)| <= cursor
      ensures event.None? ==> pc == if old(pc.TryAgain?) then Raised(false) else CheckClosed(old(pc.phase))
    {
      var more := HasNext();
      Others();
      if more {
        var m := Take();
        event := Some(m);
      } else {
        event := None;
      }
    }

    /** An event, or the end of the stream if it is closed and drained, or else nothing: whatever is
        due when it begins is answered, in every phase. */
    method DrainOrRaise() returns (next: Next)
      requires pc.CheckSelf?
      modifies stream, signal, this
      ensures Grew(old(stream.events), old(stream.closed), stream.events, stream.closed)
      ensures old(closed) ==> closed
      ensures Delivered(next, old(cursor), old(delivered))
      ensures next.Nothing? ==> !old(closed) && !old(stream.closed) && |old(stream.events)| <= old(cursor)
      ensures old(closed) ==> next.StreamClosed?
      ensures match next
              case Event(_) => pc == Idle
              case StreamClosed => pc.Raised?
              case Nothing => pc == AfterNothing(old(pc.phase))
    {
      var own := SelfClosed();
      if own { return StreamClosed; }
      Others();
      var event := Advance();
      if event.Some? { return Event(event.value); }
      Others();
      var ended := StreamIsClosed();
      if ended {
        Others();
        event := Advance();
        if event.Some? { return Event(event.value); }
        return StreamClosed;
      }
      next := Nothing;
    }

    /** Caught up: clear the signal, then look again, in that order. */
    method ClearAndRecheck() returns (next: Next)
      requires pc == ClearSignal
      modifies stream, signal, this
      ensures Grew(old(stream.events), old(stream.closed), stream.events, stream.closed)
      ensures old(closed) ==> closed
      ensures Delivered(next, old(cursor), old(delivered))
      ensures next.Nothing? ==> !old(closed) && !old(stream.closed) && |old(stream.events)| <= old(cursor)
      ensures old(closed) ==> next.StreamClosed?
      ensures match next case Event(_) => pc == Idle case StreamClosed => pc.Raised? case Nothing => pc == Parked
    {
      Others();
      Clear();
      Others();
      next := DrainOrRaise();
    }

    method WaitAndDrain() returns (next: Next)
      requires pc == Parked
      modifies stream, signal, this
      ensures Grew(old(stream.events), old(stream.closed), stream.events, stream.closed)
      ensures old(closed) ==> closed
      ensures Delivered(next, old(cursor), old(delivered))
      ensures next.Nothing? ==> !old(closed) && !old(stream.closed) && |old(stream.events)| <= old(cursor)
      ensures old(closed) ==> next.StreamClosed?
      ensures if next.StreamClosed? then pc.Raised? else pc == Idle
    {
      Others();
      Wait();
      Others();
      next := DrainOrRaise();
    }

    /** Ends where the next call may begin. Answers "nothing" only after the signal was cleared, the
        stream read again and the wait was over, and only if nothing was due when it was called: a
        closed reader or a closed stream, or an event ahead of the cursor, gets its answer. */
    method ReadNext() returns (next: Next)
      requires pc == Idle || pc.Raised?
      modifies stream, signal, this
      ensures Grew(old(stream.events), old(stream.closed), stream.events, stream.closed)
      ensures old(closed) ==> closed
      ensures Delivered(next, old(cursor), old(delivered))
      ensures next.Nothing? ==> !old(closed) && !old(stream.closed) && |old(stream.events)| <= old(cursor)
      ensures old(closed) ==> next.StreamClosed?
      ensures if next.StreamClosed? then pc.Raised? else pc == Idle
    {
      Begin();
      next := DrainOrRaise();
      if !next.Nothing? { return; }
      next := ClearAndRecheck();
      if !next.Nothing? { return; }
      next := WaitAndDrain();
    }

    /** Idempotent; leaves the signal unset if it was. */
    method Close()
      modifies this`closed, stream`signals
      ensures closed && signal.isSet == old(signal.isSet)
      ensures stream.signals == if old(closed) then old(stream.signals) else old(stream.signals) - {signal}
    {
      if closed { return; }
      closed := true;
      stream.signals := stream.signals - {signal};
    }
  }

  /** `events[cursor:]`, where a negative cursor counts from the end. */
  function SliceFrom(events: seq<Message>, cursor: int): (r: seq<Message>)
    ensures |r| <= |events| && events[|events| - |r|..] == r
    ensures |r| == if cursor >= |events| then 0
                   else if cursor >= 0 then |events| - cursor
                   else if -cursor <= |events| then -cursor else |events|
  {
    if cursor >= |events| then []
    else if cursor >= 0 then events[cursor..]
    else if -cursor <= |events| then events[|events| + cursor..]
    else events
  }

  class LocalEventStream {
    var streams: map<TeamId, TeamEvents>

    /** The map names open streams, each under one team. */
    ghost predicate Valid()
      reads this, streams.Values
    {
      && (forall team <- streams :: !streams[team].closed)
      && (forall a <- streams, b <- streams :: streams[a] == streams[b] ==> a == b)
    }

    /** Every object that a call may reach from the map. */
    ghost function Reach(): set<object>
      reads this, streams.Values
    {
      (set team <- streams :: streams[team] as object)
      + (set team <- streams, sig <- streams[team].signals :: sig as object)
    }

    constructor ()
      ensures Valid() && streams == map[]
    {
      streams := map[];
    }

    // ----- the critical sections of `_lock` -----

    /** Get-or-create. */
    method Enter(team: TeamId) returns (ts: TeamEvents)
      requires Valid()
      modifies this
      ensures Valid() && streams == old(streams)[team := ts]
      ensures team in old(streams) ==> ts == old(streams[team])
      ensures team !in old(streams) ==> fresh(ts) && ts.events == [] && ts.signals == {} && !ts.closed
    {
      if team in streams {
        ts := streams[team];
      } else {
        ts := new TeamEvents();
        streams := streams[team := ts];
      }
      assert streams == old(streams)[team := ts];
    }

    method Pop(team: TeamId) returns (ts: Option<TeamEvents>)
      requires Valid()
      modifies this
      ensures Valid() && streams == old(streams) - {team}
      ensures ts == if team in old(streams) then Some(old(streams[team])) else None
      ensures if ts.Some? then ts.value !in streams.Values else streams == old(streams)
    {
      ts := None;
      if team in streams {
        ts := Some(streams[team]);
        streams := streams - {team};
      } else {
        assert streams - {team} == streams;
      }
    }

    method Look(team: TeamId) returns (ts: Option<TeamEvents>)
      ensures ts == if team in streams then Some(streams[team]) else None
    {
      ts := if team in streams then Some(streams[team]) else None;
    }

    // ----- everyone else -----

    /** What other threads do between two critical sections of a call that holds `ts`. They may
        append, subscribe and remove, to `ts` as to any other stream: a stream may leave the map,
        and is closed only when it has; one that left does not come back; what joins is new. */
    method Others(ts: TeamEvents)
      requires Valid()
      modifies this, Reach(), ts, ts.signals
      ensures Valid() && Grew(old(ts.events), old(ts.closed), ts.events, ts.closed)
      ensures forall team <- streams ::
                (team in old(streams) && streams[team] == old(streams[team])) || fresh(streams[team])
      ensures forall sig <- ts.signals :: sig in old(ts.signals) || fresh(sig)
      ensures forall o <- Reach() :: o in old(Reach()) || fresh(o)
    {
    }

    // ----- the operations -----

    /** A positive answer is the place of the event, the last of the stream the lookup found, behind
        all that was there before. The answer is -1 if that stream has been removed meanwhile, and
        then the event is nowhere. `ts` and `before`: that stream, and its events at the write. */
    method Append(team: TeamId, event: Message) returns (number: int, ghost ts: TeamEvents, ghost before: seq<Message>)
      requires Valid()
      modifies this, Reach()
      ensures Valid()
      ensures if team in old(streams) then ts == old(streams[team]) && old(streams[team].events) <= before
                else fresh(ts)
      ensures number != -1 ==> ts.events == before + [event] && number == |ts.events| && !ts.closed
      ensures number != -1 ==> forall sig <- ts.signals :: sig.isSet
      ensures number == -1 ==> ts.closed && ts.events == before && ts !in streams.Values
    {
      var entered := Enter(team);
      Others(entered);
      ts, before := entered, entered.events;
      number := entered.Write(event);
    }

    /** Nothing without an entry; else what the stream found holds from the cursor on, when the list
        is read after the lock is released. */
    method ReadFrom(team: TeamId, cursor: int) returns (answer: seq<Message>)
      requires Valid()
      modifies this, Reach()
      ensures Valid()
      ensures team !in old(streams) ==> answer == [] && streams == old(streams)
      ensures team in old(streams) ==>
                var ts := old(streams[team]);
                old(ts.events) <= ts.events && answer == SliceFrom(ts.events, cursor)
    {
      var found := Look(team);
      if found.None? { return []; }
      Others(found.value);
      answer := SliceFrom(found.value.events, cursor);
    }

    /** A reader of the stream the lookup found, registered there with a signal of its own; or
        `StreamClosed` if that stream has been removed meanwhile. */
    method Subscribe(team: TeamId, cursor: nat) returns (reader: Result<LocalStreamReader, Next>, ghost ts: TeamEvents)
      requires Valid()
      modifies this, Reach()
      ensures Valid()
      ensures if team in old(streams) then ts == old(streams[team]) else fresh(ts)
      ensures reader.Ok? ==>
                && fresh(reader.value) && fresh(reader.value.signal) && !reader.value.signal.isSet
                && reader.value.stream == ts && reader.value.cursor == cursor && !reader.value.closed
                && reader.value.pc == Idle && reader.value.delivered == []
                && reader.value.signal in ts.signals && !ts.closed
      ensures reader.Err? ==> reader.error == StreamClosed && ts.closed && ts !in streams.Values
    {
      var entered := Enter(team);
      Others(entered);
      ts := entered;
      var signal := new Signal();
      var joined := entered.Join(signal);
      if !joined { return Err(StreamClosed), ts; }
      var made := new LocalStreamReader(entered, signal, cursor);
      reader := Ok(made);
    }

    /** The entry goes, and the stream it named is closed for good, behind a map that no longer names
        it: its events stay and every reader still registered is signalled. */
    method Remove(team: TeamId)
      requires Valid()
      modifies this, Reach()
      ensures Valid()
      ensures team !in old(streams) ==> streams == old(streams)
      ensures team in old(streams) ==>
                var ts := old(streams[team]);
                && ts.closed && old(ts.events) <= ts.events && ts !in streams.Values
                && forall sig <- ts.signals :: sig.isSet
      ensures forall other <- streams ::
                (other in old(streams) && streams[other] == old(streams[other])) || fresh(streams[other])
    {
      var popped := Pop(team);
      if popped.None? { return; }
      Others(popped.value);
      popped.value.MarkClosed();
    }
  }
}
