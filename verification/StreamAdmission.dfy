/** The server and its control connections together: a media port is asked for by a connection's
    dot command only (src/FtlControlConnection.cpp:412-453, src/FtlServer.cpp:139-167), so that
    every stream comes from a client that has authenticated for its channel. */
module StreamAdmission {
  import S = ServerModel
  import L = ServerLifetimes
  import C = ControlConnection
  import F = ControlFraming
  import T = ControlText
  import opened ServerStreams

  /** The server, the connections it has made, and for which connection and channel the
      service issued each stream id. */
  datatype Node = Node(
    server: S.Server,
    connections: map<S.Conn, C.Connection>,
    origin: map<StreamId, (S.Conn, Channel)>)

  function Initial(minPort: S.Port, maxPort: S.Port): Node {
    Node(S.Initial(minPort, maxPort), map[], map[])
  }

  datatype Step =
    | OnServer(own: S.Step)                     // the server on its own
    | OnConnection(conn: S.Conn, input: C.Input)  // a connection gets bytes, a key or a port

  predicate Enabled(n: Node, step: Step) {
    match step
    case OnServer(own) => S.Enabled(n.server, own) &&
      !(own.Arrive? && (own.event.ControlRequestMediaPort? || own.event.ControlRequestHmacKey?))
    case OnConnection(c, _) => c in n.connections
  }

  /** What a connection asks its server for. */
  function Requests(conn: S.Conn, entries: seq<C.Entry>): seq<S.Event> {
    if entries == [] then []
    else
      var rest := Requests(conn, entries[..|entries| - 1]);
      match entries[|entries| - 1]
      case KeyRequested(ch, _) => rest + [S.ControlRequestHmacKey(conn, ch)]
      case PortRequested(ch, _) => rest + [S.ControlRequestMediaPort(conn, ch)]
      case _ => rest
  }

  function Made(n: Node, own: S.Step): map<S.Conn, C.Connection>
    requires S.Enabled(n.server, own)
  {
    if own.Dispatch? && n.server.queue[0].NewControlConnection? then n.connections[n.server.connections := C.FRESH]
    else n.connections
  }

  function Issued(n: Node, own: S.Step): map<StreamId, (S.Conn, Channel)>
    requires S.Enabled(n.server, own)
  {
    if own.Complete? && own.success && n.server.tasks[own.task].CallStreamStarted?
    then n.origin[own.streamId := (n.server.tasks[own.task].conn, n.server.tasks[own.task].channel)]
    else n.origin
  }

  function Apply(env: C.Env, n: Node, step: Step): Node
    requires Enabled(n, step)
  {
    match step
    case OnServer(own) => Node(S.Apply(n.server, own), Made(n, own), Issued(n, own))
    case OnConnection(conn, input) =>
      var (c, d) := (n.connections[conn], C.Take(env, n.connections[conn], input));
      LogGrows(env, c, input);
      n.(connections := n.connections[conn := d],
         server := n.server.(queue := n.server.queue + Requests(conn, d.log[|c.log|..])))
  }

  // ---------------------------------------------------------------------------
  // Logs

  ghost predicate Grows(c: C.Connection, d: C.Connection) {
    |c.log| <= |d.log| && d.log[..|c.log|] == c.log
  }

  lemma GrowsOn(c: C.Connection, d: C.Connection, e: C.Connection)
    requires Grows(c, d) && Grows(d, e)
    ensures Grows(c, e)
  {
    assert e.log[..|c.log|] == e.log[..|d.log|][..|c.log|];
  }

  lemma ProcessGrows(env: C.Env, c: C.Connection, command: string)
    ensures Grows(c, C.Process(env, c, command))
  {
    hide T.SplitAttribute, C.SetAttribute, C.Startable, T.StartsWith, T.FindConnect, T.Parse, T.HexBytes;
  }

  lemma {:induction false} ProcessAllGrows(env: C.Env, c: C.Connection, commands: seq<string>)
    ensures Grows(c, C.ProcessAll(env, c, commands))
    decreases |commands|
  {
    hide C.Process;
    if commands != [] {
      var d := C.Process(env, c, commands[0]);
      ProcessGrows(env, c, commands[0]);
      ProcessAllGrows(env, d, commands[1..]);
      GrowsOn(c, d, C.ProcessAll(env, c, commands));
    }
  }

  lemma LogGrows(env: C.Env, c: C.Connection, input: C.Input)
    ensures Grows(c, C.Take(env, c, input))
  {
    hide C.ProcessAll, F.Feed;
    match input
    case Received(bytes) => ProcessAllGrows(env, c, F.Feed(c.commandBuffer, bytes).0);
    case KeyProvided(_) =>
    case PortStarted(_) =>
  }

  // ---------------------------------------------------------------------------
  // What the server does with requests

  predicate Asks(e: S.Event, c: S.Conn, ch: Channel) {
    e == S.ControlRequestMediaPort(c, ch)
  }

  predicate Calls(t: S.Task, c: S.Conn, ch: Channel) {
    t == S.CallStreamStarted(c, ch)
  }

  /** No request for a media port comes from the server itself. */
  lemma NoNewRequests(s: S.Server, own: S.Step, e: S.Event)
    requires Enabled(Node(s, map[], map[]), OnServer(own)) && e in S.Apply(s, own).queue && e.ControlRequestMediaPort?
    ensures e in s.queue
  {
    hide S.Handle, S.OnComplete, S.SearchEnds;
    match own
    case Dispatch(now) => L.HandleQueue(S.Dequeue(s), s.queue[0], now);
    case Complete(i, ok, id) => CompleteIssues(S.Finish(s, i), s.tasks[i], ok, id);
    case _ =>
  }

  /** Streams are asked for on behalf of the connection that made the request. */
  lemma CallIsAsked(s: S.Server, own: S.Step, t: S.Task)
    requires S.Enabled(s, own) && t in S.Apply(s, own).tasks && t.CallStreamStarted?
    ensures t in s.tasks || (own.Dispatch? && Asks(s.queue[0], t.conn, t.channel))
  {
    hide S.Handle, S.SearchEnds, S.OnComplete;
    match own
    case Dispatch(now) => HandleAdds(S.Dequeue(s), s.queue[0], now);
    case Complete(i, ok, id) => CompleteTasks(S.Finish(s, i), s.tasks[i], ok, id);
    case _ =>
  }

  /** An id is assigned to the connection and channel it was issued for. */
  lemma AssignedIsIssued(s: S.Server, own: S.Step, e: S.Event)
    requires S.Enabled(s, own) && e in S.Apply(s, own).queue && e.StreamIdAssigned?
    ensures e in s.queue || (own.Complete? && own.success && Calls(s.tasks[own.task], e.conn, e.channel)
                             && e.streamId == own.streamId)
  {
    hide S.Handle, S.SearchEnds, S.OnComplete;
    match own
    case Dispatch(now) => L.HandleQueue(S.Dequeue(s), s.queue[0], now);
    case Complete(i, ok, id) => CompleteAssigns(S.Finish(s, i), s.tasks[i], ok, id, e);
    case _ =>
  }

  lemma CompleteAssigns(s: S.Server, t: S.Task, success: bool, id: StreamId, e: S.Event)
    requires e in S.OnComplete(s, t, success, id).queue && e.StreamIdAssigned?
    ensures e in s.queue || (success && Calls(t, e.conn, e.channel) && e.streamId == id)
  {
  }

  /** A stream is started for the connection its id was assigned to. */
  lemma StartedIsAssigned(s: S.Server, own: S.Step, t: S.Task)
    requires S.Enabled(s, own) && t in S.Apply(s, own).tasks && t.StartStream?
    ensures t in s.tasks || (own.Dispatch? && s.queue[0] == S.StreamIdAssigned(t.conn, t.channel, t.streamId))
  {
    hide S.Handle, S.SearchEnds, S.OnComplete;
    match own
    case Dispatch(now) => HandleAdds(S.Dequeue(s), s.queue[0], now);
    case Complete(i, ok, id) => CompleteTasks(S.Finish(s, i), s.tasks[i], ok, id);
    case _ =>
  }

  lemma IssuedGrows(s: S.Server, own: S.Step)
    requires S.Enabled(s, own)
    ensures S.Apply(s, own).issued ==
            if own.Complete? && own.success && s.tasks[own.task].CallStreamStarted?
            then s.issued + {own.streamId} else s.issued
    ensures s.connections <= S.Apply(s, own).connections
    ensures own.Dispatch? && s.queue[0].NewControlConnection? ==> s.connections < S.Apply(s, own).connections
  {
    hide S.Handle, S.OnComplete, S.SearchEnds;
    match own
    case Dispatch(now) => HandleIssuesNone(S.Dequeue(s), s.queue[0], now);
    case Complete(i, ok, id) => CompleteIssues(S.Finish(s, i), s.tasks[i], ok, id);
    case _ =>
  }

  lemma HandleIssuesNone(s: S.Server, e: S.Event, now: nat)
    requires S.CanHandle(s, e)
    ensures S.Handle(s, e, now).issued == s.issued
    ensures S.Handle(s, e, now).connections == s.connections + if e.NewControlConnection? then 1 else 0
  {
    hide S.ReservePort, S.Matches, S.SearchEnds;
  }

  lemma CompleteIssues(s: S.Server, t: S.Task, success: bool, id: StreamId)
    ensures S.OnComplete(s, t, success, id).issued ==
            if t.CallStreamStarted? && success then s.issued + {id} else s.issued
    ensures S.OnComplete(s, t, success, id).connections == s.connections
    ensures forall e :: e in S.OnComplete(s, t, success, id).queue && e.ControlRequestMediaPort? ==> e in s.queue
  {
  }

  // ---------------------------------------------------------------------------
  // What every step keeps

  /** The connection's client has authenticated for the channel. */
  ghost predicate Admitted(env: C.Env, n: Node, c: S.Conn, ch: Channel) {
    c in n.connections && C.Vouched(env, n.connections[c].log, ch)
  }

  ghost predicate HonestAll(env: C.Env, n: Node) {
    forall c :: c in n.connections ==> c < n.server.connections && C.Honest(env, n.connections[c])
  }

  ghost predicate RequestsAdmitted(env: C.Env, n: Node) {
    && (forall e :: e in n.server.queue && e.ControlRequestMediaPort? ==> Admitted(env, n, e.conn, e.channel))
    && (forall t :: t in n.server.tasks && t.CallStreamStarted? ==> Admitted(env, n, t.conn, t.channel))
  }

  ghost predicate OriginsAdmitted(env: C.Env, n: Node) {
    && n.origin.Keys == n.server.issued
    && forall id :: id in n.origin ==> Admitted(env, n, n.origin[id].0, n.origin[id].1)
  }

  /** Ids go where they were issued for. */
  ghost predicate Traced(n: Node) {
    && (forall e :: e in n.server.queue && e.StreamIdAssigned? ==>
          e.streamId in n.origin && n.origin[e.streamId] == (e.conn, e.channel))
    && (forall t :: t in n.server.tasks && t.StartStream? ==>
          t.streamId in n.origin && n.origin[t.streamId] == (t.conn, t.channel))
    && (forall ch: Channel, id: StreamId :: Has(n.server, ch, id) ==> id in n.origin && n.origin[id].1 == ch)
  }

  ghost predicate Sound(env: C.Env, n: Node) {
    HonestAll(env, n) && RequestsAdmitted(env, n) && OriginsAdmitted(env, n) && Traced(n)
  }

  /** Making a connection leaves the others as they are. */
  lemma MadeKeeps(env: C.Env, n: Node, own: S.Step, m: Node, c: S.Conn, ch: Channel)
    requires S.Enabled(n.server, own) && HonestAll(env, n) && m.connections == Made(n, own) && Admitted(env, n, c, ch)
    ensures Admitted(env, m, c, ch)
  {
    hide C.Honest, C.Vouched;
  }

  lemma OwnHonest(env: C.Env, n: Node, own: S.Step)
    requires Enabled(n, OnServer(own)) && HonestAll(env, n)
    ensures HonestAll(env, Apply(env, n, OnServer(own)))
  {
    hide C.Honest, S.Apply;
    IssuedGrows(n.server, own);
    C.FreshIsHonest(env);
  }

  lemma OwnRequests(env: C.Env, n: Node, own: S.Step)
    requires Enabled(n, OnServer(own)) && HonestAll(env, n) && RequestsAdmitted(env, n)
    ensures RequestsAdmitted(env, Apply(env, n, OnServer(own)))
  {
    hide S.Apply, HonestAll, Admitted, Made;
    var u := Apply(env, n, OnServer(own));
    forall e | e in u.server.queue && e.ControlRequestMediaPort? ensures Admitted(env, u, e.conn, e.channel) {
      NoNewRequests(n.server, own, e);
      MadeKeeps(env, n, own, u, e.conn, e.channel);
    }
    forall t | t in u.server.tasks && t.CallStreamStarted? ensures Admitted(env, u, t.conn, t.channel) {
      CallIsAsked(n.server, own, t);
      if t !in n.server.tasks { assert n.server.queue[0] in n.server.queue; }
      MadeKeeps(env, n, own, u, t.conn, t.channel);
    }
  }

  lemma OwnOrigins(env: C.Env, n: Node, own: S.Step)
    requires Enabled(n, OnServer(own)) && HonestAll(env, n) && RequestsAdmitted(env, n) && OriginsAdmitted(env, n)
    ensures OriginsAdmitted(env, Apply(env, n, OnServer(own)))
  {
    hide S.Apply, HonestAll, Admitted, Made;
    var u := Apply(env, n, OnServer(own));
    IssuedGrows(n.server, own);
    forall id | id in u.origin ensures Admitted(env, u, u.origin[id].0, u.origin[id].1) {
      if own.Complete? { assert n.server.tasks[own.task] in n.server.tasks; }
      MadeKeeps(env, n, own, u, u.origin[id].0, u.origin[id].1);
    }
  }

  lemma OwnTraced(env: C.Env, n: Node, own: S.Step)
    requires Enabled(n, OnServer(own)) && Traced(n) && n.origin.Keys == n.server.issued
    ensures Traced(Apply(env, n, OnServer(own)))
  {
    hide S.Apply, Has, Made;
    var (s, u) := (n.server, Apply(env, n, OnServer(own)));
    assert own.Complete? && own.success && s.tasks[own.task].CallStreamStarted? ==> own.streamId !in n.origin;
    forall e | e in u.server.queue && e.StreamIdAssigned?
      ensures e.streamId in u.origin && u.origin[e.streamId] == (e.conn, e.channel)
    {
      AssignedIsIssued(s, own, e);
    }
    forall t | t in u.server.tasks && t.StartStream?
      ensures t.streamId in u.origin && u.origin[t.streamId] == (t.conn, t.channel)
    {
      StartedIsAssigned(s, own, t);
      if t !in s.tasks { assert s.queue[0] in s.queue; }
    }
    forall ch: Channel, id: StreamId | Has(u.server, ch, id) ensures id in u.origin && u.origin[id].1 == ch {
      if !(own.Complete? && own.success && s.tasks[own.task].CallStreamStarted?
           && s.tasks[own.task].channel == ch && own.streamId == id) {
        StepBringsNone(s, own, ch, id);
      }
    }
  }

  lemma OwnSound(env: C.Env, n: Node, own: S.Step)
    requires Enabled(n, OnServer(own)) && Sound(env, n)
    ensures Sound(env, Apply(env, n, OnServer(own)))
  {
    OwnHonest(env, n, own);
    OwnRequests(env, n, own);
    OwnOrigins(env, n, own);
    OwnTraced(env, n, own);
    hide Apply, HonestAll, RequestsAdmitted, Traced;
  }

  /** A connection asks for a port only where its log says so. */
  lemma {:induction false} RequestsMeant(conn: S.Conn, entries: seq<C.Entry>, e: S.Event)
    requires e in Requests(conn, entries)
    ensures e.ControlRequestHmacKey? || e.ControlRequestMediaPort?
    ensures e.ControlRequestMediaPort? ==>
              e.conn == conn && exists j :: 0 <= j < |entries| && PortAt(entries, j, e.channel)
  {
    var front := entries[..|entries| - 1];
    if e in Requests(conn, front) {
      RequestsMeant(conn, front, e);
      if e.ControlRequestMediaPort? {
        var j :| 0 <= j < |front| && PortAt(front, j, e.channel);
        assert PortAt(entries, j, e.channel);
      }
    } else if e.ControlRequestMediaPort? {
      assert PortAt(entries, |entries| - 1, e.channel);
    }
  }

  predicate PortAt(entries: seq<C.Entry>, j: int, ch: Channel) {
    0 <= j < |entries| && entries[j].PortRequested? && entries[j].channel == ch
  }

  lemma RequestIsVouched(env: C.Env, d: C.Connection, k: nat, ch: Channel)
    requires C.Honest(env, d) && PortAt(d.log, k, ch)
    ensures C.Vouched(env, d.log, ch)
  {
    hide C.Startable, T.OneValue, C.Vouched;
    assert C.Vouched(env, d.log[..k], ch);
    C.VouchedExtends(env, d.log[..k], d.log[k..], ch);
    assert d.log[..k] + d.log[k..] == d.log;
  }

  lemma TakeIsHonest(env: C.Env, c: C.Connection, input: C.Input)
    requires C.Honest(env, c)
    ensures C.Honest(env, C.Take(env, c, input))
  {
    hide C.Honest, C.Take;
    C.HonestTakeAll(env, c, [input]);
    assert [input][1..] == [];
  }

  /** More in its log leaves a client admitted. */
  lemma TakeKeepsAdmitted(env: C.Env, n: Node, conn: S.Conn, input: C.Input, c: S.Conn, ch: Channel)
    requires conn in n.connections && Admitted(env, n, c, ch)
    ensures Admitted(env, Apply(env, n, OnConnection(conn, input)), c, ch)
  {
    hide C.Vouched, C.Take;
    if c == conn {
      var (b, d) := (n.connections[c], C.Take(env, n.connections[c], input));
      LogGrows(env, b, input);
      C.VouchedExtends(env, b.log, d.log[|b.log|..], ch);
      assert b.log + d.log[|b.log|..] == d.log;
    }
  }

  lemma TakeRequests(env: C.Env, n: Node, conn: S.Conn, input: C.Input)
    requires conn in n.connections && HonestAll(env, n) && RequestsAdmitted(env, n)
    ensures RequestsAdmitted(env, Apply(env, n, OnConnection(conn, input)))
  {
    hide C.Vouched, C.Take, C.Honest;
    var u := Apply(env, n, OnConnection(conn, input));
    var (b, d) := (n.connections[conn], C.Take(env, n.connections[conn], input));
    LogGrows(env, b, input);
    TakeIsHonest(env, b, input);
    var more := d.log[|b.log|..];
    forall e | e in u.server.queue && e.ControlRequestMediaPort? ensures Admitted(env, u, e.conn, e.channel) {
      if e in n.server.queue {
        TakeKeepsAdmitted(env, n, conn, input, e.conn, e.channel);
      } else {
        RequestsMeant(conn, more, e);
        var j :| 0 <= j < |more| && PortAt(more, j, e.channel);
        assert PortAt(d.log, |b.log| + j, e.channel);
        RequestIsVouched(env, d, |b.log| + j, e.channel);
      }
    }
    forall t | t in u.server.tasks && t.CallStreamStarted? ensures Admitted(env, u, t.conn, t.channel) {
      TakeKeepsAdmitted(env, n, conn, input, t.conn, t.channel);
    }
  }

  lemma TakeHonest(env: C.Env, n: Node, conn: S.Conn, input: C.Input)
    requires conn in n.connections && HonestAll(env, n)
    ensures HonestAll(env, Apply(env, n, OnConnection(conn, input)))
  {
    hide C.Take, C.Honest, Requests;
    TakeIsHonest(env, n.connections[conn], input);
  }

  lemma TakeOrigins(env: C.Env, n: Node, conn: S.Conn, input: C.Input)
    requires conn in n.connections && OriginsAdmitted(env, n)
    ensures OriginsAdmitted(env, Apply(env, n, OnConnection(conn, input)))
  {
    hide C.Take, Requests, Admitted;
    var u := Apply(env, n, OnConnection(conn, input));
    forall id | id in u.origin ensures Admitted(env, u, u.origin[id].0, u.origin[id].1) {
      TakeKeepsAdmitted(env, n, conn, input, u.origin[id].0, u.origin[id].1);
    }
  }

  lemma TakeSound(env: C.Env, n: Node, conn: S.Conn, input: C.Input)
    requires Enabled(n, OnConnection(conn, input)) && Sound(env, n)
    ensures Sound(env, Apply(env, n, OnConnection(conn, input)))
  {
    hide Apply, HonestAll, RequestsAdmitted, OriginsAdmitted, Traced;
    TakeHonest(env, n, conn, input);
    TakeRequests(env, n, conn, input);
    TakeOrigins(env, n, conn, input);
    TakeTraced(env, n, conn, input);
  }

  lemma TakeTraced(env: C.Env, n: Node, conn: S.Conn, input: C.Input)
    requires conn in n.connections && Traced(n)
    ensures Traced(Apply(env, n, OnConnection(conn, input)))
  {
    hide C.Take;
    var u := Apply(env, n, OnConnection(conn, input));
    var (b, d) := (n.connections[conn], C.Take(env, n.connections[conn], input));
    LogGrows(env, b, input);
    var more := Requests(conn, d.log[|b.log|..]);
    forall e | e in more ensures e.ControlRequestHmacKey? || e.ControlRequestMediaPort? {
      RequestsMeant(conn, d.log[|b.log|..], e);
    }
    hide Requests;
    forall ch: Channel, id: StreamId | Has(u.server, ch, id) ensures Has(n.server, ch, id) {
      RequestsCarryNone(n.server, more, ch, id);
    }
  }

  lemma RequestsCarryNone(s: S.Server, events: seq<S.Event>, ch: Channel, id: StreamId)
    requires forall e :: e in events ==> e.ControlRequestHmacKey? || e.ControlRequestMediaPort?
    requires Has(s.(queue := s.queue + events), ch, id)
    ensures Has(s, ch, id)
  {
    var u := s.(queue := s.queue + events);
    assert forall i :: |s.queue| <= i < |u.queue| ==> u.queue[i] in events;
    if i :| 0 <= i < |u.queue| && Carries(u.queue[i], ch, id) {
      assert s.queue[i] == u.queue[i];
    } else if i :| 0 <= i < |u.tasks| && Starts(u.tasks[i], ch, id) {
      assert Starts(s.tasks[i], ch, id);
    }
  }

  // ---------------------------------------------------------------------------
  // Every run

  ghost predicate CanRun(env: C.Env, n: Node, steps: seq<Step>)
    decreases |steps|
  {
    steps != [] ==> Enabled(n, steps[0]) && CanRun(env, Apply(env, n, steps[0]), steps[1..])
  }

  ghost function Run(env: C.Env, n: Node, steps: seq<Step>): Node
    requires CanRun(env, n, steps)
    decreases |steps|
  {
    if steps == [] then n else Run(env, Apply(env, n, steps[0]), steps[1..])
  }

  lemma {:induction false} RunSound(env: C.Env, n: Node, steps: seq<Step>)
    requires Sound(env, n) && CanRun(env, n, steps)
    ensures Sound(env, Run(env, n, steps))
    decreases |steps|
  {
    hide Sound, Apply, Enabled;
    if steps != [] {
      StepSound(env, n, steps[0]);
      RunSound(env, Apply(env, n, steps[0]), steps[1..]);
    }
  }

  lemma StepSound(env: C.Env, n: Node, step: Step)
    requires Sound(env, n) && Enabled(n, step)
    ensures Sound(env, Apply(env, n, step))
  {
    hide Sound, Apply;
    match step
    case OnServer(own) => OwnSound(env, n, own);
    case OnConnection(conn, input) => TakeSound(env, n, conn, input);
  }

  /** In every run of the server and its connections, whatever the clients send and whatever
      keys are provided: every stream id was issued for a connection whose log shows that it
      asked for the key of the stream's channel, and that the key provided turned the payload
      last sent to the client into the hash the client gave; and a stream the server has is on the
      channel its id was issued for. */
  lemma EveryStreamIsAdmitted(env: C.Env, minPort: S.Port, maxPort: S.Port, steps: seq<Step>, ch: Channel, id: StreamId)
    requires CanRun(env, Initial(minPort, maxPort), steps)
    ensures
      var n := Run(env, Initial(minPort, maxPort), steps);
      && (id in n.server.issued <==> id in n.origin)
      && (id in n.origin ==> Admitted(env, n, n.origin[id].0, n.origin[id].1))
      && (Has(n.server, ch, id) ==> id in n.origin && n.origin[id].1 == ch)
  {
    assert Sound(env, Initial(minPort, maxPort));
    RunSound(env, Initial(minPort, maxPort), steps);
    hide Run, Admitted, Has;
  }

  // ---------------------------------------------------------------------------
  // Connections

  /** The connections are those announced so far, and no others. */
  ghost predicate Connected(n: Node) {
    && (forall c: S.Conn :: c in n.connections <==> c < n.server.connections)
    && (forall c :: c in n.server.pending ==> c < n.server.connections)
  }

  lemma ServerCounts(s: S.Server, own: S.Step)
    requires S.Enabled(s, own)
    ensures
      var (u, made) := (S.Apply(s, own), own.Dispatch? && s.queue[0].NewControlConnection?);
      && u.connections == (if made then s.connections + 1 else s.connections)
      && forall c :: c in u.pending ==> c in s.pending || (made && c == s.connections)
  {
    hide S.ReservePort, S.SearchEnds, S.Matches;
  }

  lemma StepConnected(env: C.Env, n: Node, step: Step)
    requires Connected(n) && Enabled(n, step)
    ensures Connected(Apply(env, n, step))
  {
    match step
    case OnServer(own) =>
      ServerCounts(n.server, own);
      hide S.Apply, S.Enabled, Issued;
    case OnConnection(_, input) => hide C.Take;
  }

  lemma {:induction false} RunConnected(env: C.Env, n: Node, steps: seq<Step>)
    requires Connected(n) && CanRun(env, n, steps)
    ensures Connected(Run(env, n, steps))
    decreases |steps|
  {
    hide Connected, Apply, Enabled;
    if steps != [] {
      StepConnected(env, n, steps[0]);
      RunConnected(env, Apply(env, n, steps[0]), steps[1..]);
    }
  }

  /** In every run there is a connection object for every connection announced, in particular
      for every pending one, so that whatever it receives can be taken. */
  lemma EveryConnectionIsMade(env: C.Env, minPort: S.Port, maxPort: S.Port, steps: seq<Step>, c: S.Conn, input: C.Input)
    requires CanRun(env, Initial(minPort, maxPort), steps)
    ensures
      var n := Run(env, Initial(minPort, maxPort), steps);
      && (Enabled(n, OnConnection(c, input)) <==> c < n.server.connections)
      && (c in n.server.pending ==> Enabled(n, OnConnection(c, input)))
  {
    RunConnected(env, Initial(minPort, maxPort), steps);
  }

  // ---------------------------------------------------------------------------
  // Requests

  /** The entry of a connection's log that makes it queue the event. */
  predicate Raises(conn: S.Conn, entry: C.Entry, e: S.Event) {
    || (entry.KeyRequested? && e == S.ControlRequestHmacKey(conn, entry.channel))
    || (entry.PortRequested? && e == S.ControlRequestMediaPort(conn, entry.channel))
  }

  function Raised(entries: seq<C.Entry>): nat {
    if entries == [] then 0
    else
      var last := entries[|entries| - 1];
      Raised(entries[..|entries| - 1]) + if last.KeyRequested? || last.PortRequested? then 1 else 0
  }

  lemma {:induction false} RequestsIff(conn: S.Conn, entries: seq<C.Entry>, e: S.Event)
    ensures e in Requests(conn, entries) <==> exists j :: 0 <= j < |entries| && Raises(conn, entries[j], e)
    ensures |Requests(conn, entries)| == Raised(entries)
  {
    if entries != [] {
      var (front, n) := (entries[..|entries| - 1], |entries| - 1);
      RequestsIff(conn, front, e);
      assert forall j :: 0 <= j < n ==> entries[j] == front[j];
      assert e in Requests(conn, entries) <==> e in Requests(conn, front) || Raises(conn, entries[n], e);
    }
  }

  /** Whatever a connection gets: every request it then logs, and nothing else, is queued on the
      server, as its own and for the channel it is for. */
  lemma EveryRequestIsQueued(env: C.Env, n: Node, conn: S.Conn, input: C.Input, e: S.Event)
    requires conn in n.connections
    ensures
      var u := Apply(env, n, OnConnection(conn, input));
      var (before, after) := (n.connections[conn].log, u.connections[conn].log);
      && |before| <= |after| && after[..|before|] == before
      && |n.server.queue| <= |u.server.queue| && u.server.queue[..|n.server.queue|] == n.server.queue
      && |u.server.queue| == |n.server.queue| + Raised(after[|before|..])
      && (e in u.server.queue[|n.server.queue|..] <==>
            exists j :: |before| <= j < |after| && Raises(conn, after[j], e))
  {
    LogGrows(env, n.connections[conn], input);
    hide C.Take, Raises;
    var (before, after) := (n.connections[conn].log, C.Take(env, n.connections[conn], input).log);
    var logged := after[|before|..];
    RequestsIff(conn, logged, e);
    var u := Apply(env, n, OnConnection(conn, input));
    assert u.server.queue[|n.server.queue|..] == Requests(conn, logged);
    assert forall j :: |before| <= j < |after| ==> after[j] == logged[j - |before|];
    if j :| 0 <= j < |logged| && Raises(conn, logged[j], e) { assert Raises(conn, after[|before| + j], e); }
  }
}
