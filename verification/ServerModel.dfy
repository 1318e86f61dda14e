/** src/FtlServer.cpp: the event loop that turns control connections into media streams.
    One thread handles queued events; everything slow runs as an asynchronous task, which
    when done queues an event in turn.  Each handler is one step of the model. */
module ServerModel {
  import opened Collections

  type Conn = nat
  type StreamRef = nat
  type Channel = nat
  type StreamId = nat
  type Port = nat

  const AUTH_TIMEOUT: nat := 5000
  const PORTS: nat := 65536

  datatype Event =
    | StopStream(channel: Channel, streamId: StreamId)
    | NewControlConnection
    | ControlConnectionClosed(conn: Conn)
    | ControlRequestHmacKey(conn: Conn, channel: Channel)
    | ControlHmacKeyFound(conn: Conn)
    | ControlRequestMediaPort(conn: Conn, channel: Channel)
    | TerminateControlConnection(conn: Conn)
    | StreamIdAssigned(conn: Conn, channel: Channel, streamId: StreamId)
    | StreamStarted(stream: StreamRef, channel: Channel, streamId: StreamId, port: Port)
    | StreamStartFailed(channel: Channel, streamId: StreamId, port: Port)
    | StreamClosed(stream: StreamRef)

  datatype Task =
    | FetchKey(conn: Conn, channel: Channel)
    | ProvideKey(conn: Conn)
    | CallStreamStarted(conn: Conn, channel: Channel)
    | StartStream(conn: Conn, channel: Channel, streamId: StreamId, port: Port)
    | Terminate(conn: Conn)
    | RequestStop(stream: StreamRef)
    | CallStreamEnded(channel: Channel, streamId: StreamId)

  datatype Record = Record(channel: Channel, streamId: StreamId, port: Port)

  /** The server, the number of connections and streams made so far (identities are never
      reused), and a log: the stream ids issued, the ids for which onStreamEnded was
      dispatched, the ids removed by StopStream, the connections handed to a stream. */
  datatype Server = Server(
    minPort: Port,
    maxPort: Port,
    pending: map<Conn, nat>,
    active: map<StreamRef, Record>,
    usedPorts: set<Port>,
    queue: seq<Event>,
    tasks: seq<Task>,
    connections: nat,
    streams: nat,
    issued: set<StreamId>,
    ended: multiset<StreamId>,
    stopped: multiset<StreamId>,
    launched: multiset<Conn>)

  function Initial(minPort: Port, maxPort: Port): Server {
    Server(minPort, maxPort, map[], map[], {}, [], [], 0, 0, {}, multiset{}, multiset{}, multiset{})
  }

  // ---------------------------------------------------------------------------
  // Pieces of handlers

  function Enqueue(s: Server, e: Event): Server {
    s.(queue := s.queue + [e])
  }

  function Spawn(s: Server, t: Task): Server {
    s.(tasks := s.tasks + [t])
  }

  function Dequeue(s: Server): Server
    requires s.queue != []
  {
    s.(queue := s.queue[1..])
  }

  function Finish(s: Server, i: nat): Server
    requires i < |s.tasks|
  {
    s.(tasks := s.tasks[..i] + s.tasks[i + 1..])
  }

  function DispatchEnded(s: Server, channel: Channel, streamId: StreamId): Server {
    Spawn(s.(ended := s.ended + multiset{streamId}), CallStreamEnded(channel, streamId))
  }

  function RemoveStreamRecord(s: Server, stream: StreamRef): Server
    requires stream in s.active
  {
    s.(usedPorts := s.usedPorts - {s.active[stream].port}, active := s.active - {stream})
  }

  /** The free ports of an inclusive range. */
  function FreePorts(s: Server, lo: Port, hi: int): set<Port> {
    Open(lo - 1, hi + 1) - s.usedPorts
  }

  /** The 16-bit loop counter runs past 65535 back to 0 when `maxPort` is 65535; with every
      port taken the search then never ends. */
  predicate SearchEnds(s: Server) {
    s.maxPort < PORTS - 1 || FreePorts(s, s.minPort, s.maxPort) != {} || FreePorts(s, 0, s.minPort - 1) != {}
  }

  function ReservePort(s: Server): Option<Port>
    requires SearchEnds(s)
  {
    if FreePorts(s, s.minPort, s.maxPort) != {} then Some(Least(FreePorts(s, s.minPort, s.maxPort)))
    else if s.maxPort < PORTS - 1 then None
    else Some(Least(FreePorts(s, 0, s.minPort - 1)))
  }

  // ---------------------------------------------------------------------------
  // Handlers

  function Matches(s: Server, channel: Channel, streamId: StreamId): set<StreamRef> {
    set st | st in s.active && s.active[st].channel == channel && s.active[st].streamId == streamId
  }

  function OnStopStream(s: Server, channel: Channel, streamId: StreamId): Server {
    var found := Matches(s, channel, streamId);
    if found == {} then s
    else
      var st := Least(found);
      Spawn(RemoveStreamRecord(s, st).(stopped := s.stopped + multiset{s.active[st].streamId}), RequestStop(st))
  }

  function OnNewControlConnection(s: Server, now: nat): Server {
    s.(pending := s.pending[s.connections := now], connections := s.connections + 1)
  }

  function OnStreamIdAssigned(s: Server, conn: Conn, channel: Channel, streamId: StreamId): Server
    requires conn in s.pending ==> SearchEnds(s)
  {
    if conn !in s.pending then DispatchEnded(s, channel, streamId)
    else
      match ReservePort(s)
      case None => Enqueue(DispatchEnded(s, channel, streamId), TerminateControlConnection(conn))
      case Some(port) =>
        Spawn(s.(usedPorts := s.usedPorts + {port}, pending := s.pending - {conn},
                 launched := s.launched + multiset{conn}),
              StartStream(conn, channel, streamId, port))
  }

  function OnTerminate(s: Server, conn: Conn): Server {
    if conn !in s.pending then s else Spawn(s.(pending := s.pending - {conn}), Terminate(conn))
  }

  function OnStreamStarted(s: Server, stream: StreamRef, record: Record): Server {
    if stream in s.active then s else s.(active := s.active[stream := record])
  }

  function OnStreamStartFailed(s: Server, channel: Channel, streamId: StreamId, port: Port): Server {
    DispatchEnded(s.(usedPorts := s.usedPorts - {port}), channel, streamId)
  }

  function OnStreamClosed(s: Server, stream: StreamRef): Server {
    if stream !in s.active then s
    else
      DispatchEnded(RemoveStreamRecord(s, stream), s.active[stream].channel, s.active[stream].streamId)
  }

  predicate CanHandle(s: Server, e: Event) {
    e.StreamIdAssigned? && e.conn in s.pending ==> SearchEnds(s)
  }

  function Handle(s: Server, e: Event, now: nat): Server
    requires CanHandle(s, e)
  {
    match e
    case StopStream(ch, id) => OnStopStream(s, ch, id)
    case NewControlConnection => OnNewControlConnection(s, now)
    case ControlConnectionClosed(c) => s.(pending := s.pending - {c})
    case ControlRequestHmacKey(c, ch) => Spawn(s, FetchKey(c, ch))
    case ControlHmacKeyFound(c) => if c in s.pending then Spawn(s, ProvideKey(c)) else s
    case ControlRequestMediaPort(c, ch) => Spawn(s, CallStreamStarted(c, ch))
    case TerminateControlConnection(c) => OnTerminate(s, c)
    case StreamIdAssigned(c, ch, id) => OnStreamIdAssigned(s, c, ch, id)
    case StreamStarted(st, ch, id, port) => OnStreamStarted(s, st, Record(ch, id, port))
    case StreamStartFailed(ch, id, port) => OnStreamStartFailed(s, ch, id, port)
    case StreamClosed(st) => OnStreamClosed(s, st)
  }

  // ---------------------------------------------------------------------------
  // Steps of the whole system

  datatype Step =
    | Dispatch(now: nat)                                       // handle the next event
    | Expire(conn: Conn, now: nat)                             // drop a connection pending too long
    | Arrive(event: Event)                                     // queued from outside
    | Complete(task: nat, success: bool, streamId: StreamId)   // a task is done
    | Stop                                                     // shut the server down

  /** What connections, streams and the owner of the server may queue, at any time. */
  predicate External(e: Event) {
    || e.NewControlConnection? || e.ControlConnectionClosed? || e.ControlRequestHmacKey?
    || e.ControlRequestMediaPort? || e.StopStream? || e.StreamClosed?
  }

  /** Pending for too long. */
  predicate Overdue(s: Server, c: Conn, now: nat) {
    c in s.pending && now - s.pending[c] > AUTH_TIMEOUT
  }

  predicate Enabled(s: Server, step: Step) {
    match step
    case Dispatch(_) => s.queue != [] && CanHandle(Dequeue(s), s.queue[0])
    case Expire(c, now) => Overdue(s, c, now)
    case Arrive(e) => External(e)
    case Complete(i, ok, id) => i < |s.tasks| && (s.tasks[i].CallStreamStarted? && ok ==> id !in s.issued)
    case Stop => true
  }

  function OnComplete(s: Server, t: Task, success: bool, id: StreamId): Server {
    match t
    case FetchKey(c, _) => Enqueue(s, if success then ControlHmacKeyFound(c) else TerminateControlConnection(c))
    case CallStreamStarted(c, ch) =>
      if success then Enqueue(s.(issued := s.issued + {id}), StreamIdAssigned(c, ch, id))
      else Enqueue(s, TerminateControlConnection(c))
    case StartStream(_, ch, sid, port) =>
      if success then Enqueue(s.(streams := s.streams + 1), StreamStarted(s.streams, ch, sid, port))
      else Enqueue(s, StreamStartFailed(ch, sid, port))
    case _ => s
  }

  function Apply(s: Server, step: Step): Server
    requires Enabled(s, step)
  {
    match step
    case Dispatch(now) => Handle(Dequeue(s), s.queue[0], now)
    case Expire(c, _) => OnTerminate(s, c)
    case Arrive(e) => Enqueue(s, e)
    case Complete(i, ok, id) => OnComplete(Finish(s, i), s.tasks[i], ok, id)
    case Stop => s.(pending := map[])
  }

  /** The sweep over pending connections at the end of each turn of the event thread. */
  function ExpireAll(s: Server, todo: set<Conn>, now: nat): Server
    decreases |todo|
  {
    if todo == {} then s
    else
      var c := Least(todo);
      ExpireAll(if Overdue(s, c, now) then OnTerminate(s, c) else s, todo - {c}, now)
  }
}
