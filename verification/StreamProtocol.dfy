/**
 The in-memory event stream as a protocol: any number of concurrent calls of
 `append`, `subscribe`, `remove` and `close`, and one thread per
 reader running `read_next`, interleaved one visible access at a time.

 A step is one access another thread can observe. Work done wholly inside
 `_lock`, or inside a stream's own lock on fields read only under that lock, is
 one step; the list append, each `sig.set()`, and each lock-free read that
 `read_next` makes of `_closed`, `len(events)`, `events[i]`, `closed` and its
 signal are steps of their own. `read_from` changes nothing and is left to
 LocalEventStream.dfy.
 */
module StreamProtocol {
  import opened Wrappers

  datatype Message = Message(body: nat)
  type TeamId = nat
  type CallId = nat

  // References: indices into the sequences of World. Objects are never freed.
  type StreamRef = nat
  type SignalRef = nat
  type ReaderRef = nat

  /** One `_TeamStream` object, so one generation of a team's stream. `authors` is
      history: the call of `append` that wrote the event at the same index. */
  datatype TeamStream = TeamStream(
    events: seq<Message>,
    signals: set<SignalRef>,
    holder: Option<CallId>,
    closed: bool,
    authors: seq<CallId>)

  /** Which of its three `_drain_or_raise` calls `read_next` is in. */
  datatype Phase = First | Recheck | Last

  /** The next access of a reader's `read_next`. */
  datatype ReadPc =
    | Idle
    | CheckSelf(phase: Phase)
    | TryAdvance(phase: Phase)
    | CheckClosed(phase: Phase)
    | TryAgain
    | Fetch
    | ClearSignal
    | Parked
    | Raised(own: bool)

  /** A `LocalStreamReader`. `start` and `delivered` are history: the cursor it was
      created with and every event `read_next` has returned. */
  datatype Reader = Reader(
    stream: StreamRef,
    signal: SignalRef,
    start: nat,
    cursor: nat,
    closed: bool,
    pc: ReadPc,
    delivered: seq<Message>)

  /** The next access of one call of an operation of the stream. */
  datatype Pc =
    | AppendLookup(team: TeamId, msg: Message)
    | AppendWrite(team: TeamId, stream: StreamRef, msg: Message)
    | AppendSignal(team: TeamId, stream: StreamRef, msg: Message, number: nat, todo: set<SignalRef>)
    | Appended(team: TeamId, stream: StreamRef, msg: Message, number: nat)
    | AppendRefused(stream: StreamRef)
    | RemoveLookup(team: TeamId)
    | RemoveMark(stream: StreamRef)
    | RemoveSignal(stream: StreamRef, todo: set<SignalRef>)
    | Removed
    | SubscribeLookup(team: TeamId, cursor: nat)
    | SubscribeJoin(stream: StreamRef, cursor: nat)
    | Subscribed(reader: ReaderRef)
    | SubscribeRefused
    | CloseCheck(reader: ReaderRef)
    | CloseMark(reader: ReaderRef)
    | CloseLeave(reader: ReaderRef)
    | Closed

  datatype World = World(
    lookup: map<TeamId, StreamRef>,
    streams: seq<TeamStream>,
    flags: seq<bool>,
    readers: seq<Reader>,
    calls: map<CallId, Pc>)

  datatype Action =
    | Start(t: CallId, op: Pc)
    | Run(t: CallId)
    | SetSignal(t: CallId, sig: SignalRef)
    | Read(r: ReaderRef)
    | Timeout(r: ReaderRef)

  const EMPTY_STREAM := TeamStream([], {}, None, false, [])
  const INITIAL := World(map[], [], [], [], map[])

  // ----- the steps -----

  predicate IsOperation(w: World, pc: Pc) {
    pc.AppendLookup? || pc.RemoveLookup? || pc.SubscribeLookup?
    || (pc.CloseCheck? && pc.reader < |w.readers|)
  }

  predicate IsDone(pc: Pc) {
    pc.Appended? || pc.AppendRefused? || pc.Removed? || pc.Subscribed? || pc.SubscribeRefused?
    || pc.Closed?
  }

  /** The object a call holds between two of its steps, when it holds one. */
  function Holding(pc: Pc): Option<StreamRef> {
    match pc
    case AppendWrite(_, o, _) => Some(o)
    case AppendSignal(_, o, _, _, _) => Some(o)
    case Appended(_, o, _, _) => Some(o)
    case AppendRefused(o) => Some(o)
    case RemoveMark(o) => Some(o)
    case RemoveSignal(o, _) => Some(o)
    case SubscribeJoin(o, _) => Some(o)
    case _ => None
  }

  /** The signals a call inside a signalling loop has still to set on stream `o`. */
  function StillToSet(pc: Pc, o: StreamRef): set<SignalRef> {
    match pc
    case AppendSignal(_, o', _, _, todo) => if o == o' then todo else {}
    case RemoveSignal(o', todo) => if o == o' then todo else {}
    case _ => {}
  }

  /** The call is inside the critical section of stream `o`'s own lock. */
  predicate Inside(pc: Pc, o: StreamRef) {
    (pc.AppendSignal? || pc.RemoveSignal?) && pc.stream == o
  }

  predicate InRange(w: World, pc: Pc) {
    && (Holding(pc).Some? ==> Holding(pc).value < |w.streams|)
    && (pc.CloseCheck? || pc.CloseMark? || pc.CloseLeave? ==> pc.reader < |w.readers|)
    && (pc.AppendSignal? || pc.RemoveSignal? ==> forall sig <- pc.todo :: sig < |w.flags|)
  }

  predicate ReaderInRange(w: World, rd: Reader) {
    rd.stream < |w.streams| && rd.signal < |w.flags|
  }

  predicate LockFree(w: World, o: StreamRef)
    requires o < |w.streams|
  {
    w.streams[o].holder.None?
  }

  predicate Enabled(w: World, a: Action) {
    match a
    case Start(t, op) => t !in w.calls && IsOperation(w, op)
    case Run(t) =>
      t in w.calls && InRange(w, w.calls[t]) && !IsDone(w.calls[t]) &&
      (match w.calls[t]
       case AppendWrite(_, o, _) => LockFree(w, o)
       case AppendSignal(_, _, _, _, todo) => todo == {}
       case RemoveMark(o) => LockFree(w, o)
       case RemoveSignal(_, todo) => todo == {}
       case SubscribeJoin(o, _) => LockFree(w, o)
       case CloseLeave(r) => w.readers[r].stream < |w.streams| && LockFree(w, w.readers[r].stream)
       case _ => true)
    case SetSignal(t, sig) =>
      t in w.calls && InRange(w, w.calls[t]) &&
      Holding(w.calls[t]).Some? && sig in StillToSet(w.calls[t], Holding(w.calls[t]).value)
    case Read(r) =>
      r < |w.readers| && ReaderInRange(w, w.readers[r]) &&
      (w.readers[r].pc.Parked? ==> w.flags[w.readers[r].signal]) &&
      (w.readers[r].pc.Fetch? ==> w.readers[r].cursor < |w.streams[w.readers[r].stream].events|)
    case Timeout(r) => r < |w.readers| && w.readers[r].pc.Parked?
  }

  /** Get-or-create under `_lock`: the stream the team's entry names afterwards. */
  function Resolve(w: World, team: TeamId): (World, StreamRef) {
    if team in w.lookup then (w, w.lookup[team])
    else (w.(streams := w.streams + [EMPTY_STREAM], lookup := w.lookup[team := |w.streams|]), |w.streams|)
  }

  function Goto(w: World, t: CallId, pc: Pc): World {
    w.(calls := w.calls[t := pc])
  }

  function Put(w: World, o: StreamRef, ts: TeamStream): World
    requires o < |w.streams|
  {
    w.(streams := w.streams[o := ts])
  }

  function ApplyRun(w: World, t: CallId): World
    requires Enabled(w, Run(t))
  {
    match w.calls[t]
    case AppendLookup(team, msg) =>
      var (w', o) := Resolve(w, team); Goto(w', t, AppendWrite(team, o, msg))
    case AppendWrite(team, o, msg) =>
      var ts := w.streams[o];
      if ts.closed then Goto(w, t, AppendRefused(o))
      else
        Goto(Put(w, o, ts.(events := ts.events + [msg], authors := ts.authors + [t], holder := Some(t))),
             t, AppendSignal(team, o, msg, |ts.events| + 1, ts.signals))
    case AppendSignal(team, o, msg, number, _) =>
      Goto(Put(w, o, w.streams[o].(holder := None)), t, Appended(team, o, msg, number))
    case RemoveLookup(team) =>
      if team in w.lookup then Goto(w.(lookup := w.lookup - {team}), t, RemoveMark(w.lookup[team]))
      else Goto(w, t, Removed)
    case RemoveMark(o) =>
      Goto(Put(w, o, w.streams[o].(closed := true, holder := Some(t))), t, RemoveSignal(o, w.streams[o].signals))
    case RemoveSignal(o, _) =>
      Goto(Put(w, o, w.streams[o].(holder := None)), t, Removed)
    case SubscribeLookup(team, cursor) =>
      var (w', o) := Resolve(w, team); Goto(w', t, SubscribeJoin(o, cursor))
    case SubscribeJoin(o, cursor) =>
      if w.streams[o].closed then Goto(w, t, SubscribeRefused)
      else
        var sig := |w.flags|;
        var rd := Reader(o, sig, cursor, cursor, false, Idle, []);
        Goto(Put(w.(flags := w.flags + [false], readers := w.readers + [rd]),
                 o, w.streams[o].(signals := w.streams[o].signals + {sig})),
             t, Subscribed(|w.readers|))
    case CloseCheck(r) => Goto(w, t, if w.readers[r].closed then Closed else CloseMark(r))
    case CloseMark(r) => Goto(w.(readers := w.readers[r := w.readers[r].(closed := true)]), t, CloseLeave(r))
    case CloseLeave(r) =>
      var o := w.readers[r].stream;
      Goto(Put(w, o, w.streams[o].(signals := w.streams[o].signals - {w.readers[r].signal})), t, Closed)
  }

  /** One access of `read_next`, as it changes the reader. */
  function Advance(rd: Reader, ts: TeamStream): Reader
    requires rd.pc.Fetch? ==> rd.cursor < |ts.events|
  {
    match rd.pc
    case Idle => rd.(pc := CheckSelf(First))
    case Raised(_) => rd.(pc := CheckSelf(First))
    case CheckSelf(phase) => if rd.closed then rd.(pc := Raised(true)) else rd.(pc := TryAdvance(phase))
    case TryAdvance(phase) => if rd.cursor < |ts.events| then rd.(pc := Fetch) else rd.(pc := CheckClosed(phase))
    case CheckClosed(phase) =>
      if ts.closed then rd.(pc := TryAgain)
      else rd.(pc := match phase case First => ClearSignal case Recheck => Parked case Last => Idle)
    case TryAgain => if rd.cursor < |ts.events| then rd.(pc := Fetch) else rd.(pc := Raised(false))
    case Fetch => rd.(delivered := rd.delivered + [ts.events[rd.cursor]], cursor := rd.cursor + 1, pc := Idle)
    case ClearSignal => rd.(pc := CheckSelf(Recheck))
    case Parked => rd.(pc := CheckSelf(Last))
  }

  function Apply(w: World, a: Action): World
    requires Enabled(w, a)
  {
    match a
    case Start(t, op) => Goto(w, t, op)
    case Run(t) => ApplyRun(w, t)
    case SetSignal(t, sig) =>
      var pc := w.calls[t];
      var pc' := if pc.AppendSignal? then AppendSignal(pc.team, pc.stream, pc.msg, pc.number, pc.todo - {sig})
                 else RemoveSignal(pc.stream, pc.todo - {sig});
      Goto(w.(flags := w.flags[sig := true]), t, pc')
    case Read(r) =>
      var rd := w.readers[r];
      var rd' := Advance(rd, w.streams[rd.stream]);
      w.(readers := w.readers[r := rd'],
         flags := if rd.pc.ClearSignal? then w.flags[rd.signal := false] else w.flags)
    case Timeout(r) => w.(readers := w.readers[r := w.readers[r].(pc := CheckSelf(Last))])
  }
}
