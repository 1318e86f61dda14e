/** src/FtlServer.cpp: the server object.  Every handler updates the fields in place and is
    proved to do what ServerModel says it does. */
module FtlServer {
  import opened Collections
  import opened ServerModel
  import ServerInvariants

  class Server {
    const minMediaPort: Port
    const maxMediaPort: Port
    var pendingControlConnections: map<Conn, nat>
    var activeStreams: map<StreamRef, Record>
    var usedMediaPorts: set<Port>
    var eventQueue: seq<Event>
    var asyncTasks: seq<Task>
    var connectionCount: nat
    var streamCount: nat
    ghost var issued: set<StreamId>
    ghost var ended: multiset<StreamId>
    ghost var stopped: multiset<StreamId>
    ghost var launched: multiset<Conn>

    ghost function View(): ServerModel.Server
      reads this
    {
      ServerModel.Server(minMediaPort, maxMediaPort, pendingControlConnections, activeStreams, usedMediaPorts,
                         eventQueue, asyncTasks, connectionCount, streamCount, issued, ended, stopped, launched)
    }

    /** Ports are 16-bit numbers, and the books of the server balance. */
    ghost predicate Valid()
      reads this
    {
      minMediaPort < PORTS && maxMediaPort < PORTS && ServerInvariants.Invariant(View())
    }

    constructor (minMediaPort: Port, maxMediaPort: Port)
      requires minMediaPort < PORTS && maxMediaPort < PORTS
      ensures Valid() && View() == Initial(minMediaPort, maxMediaPort)
    {
      this.minMediaPort, this.maxMediaPort := minMediaPort, maxMediaPort;
      pendingControlConnections, activeStreams, usedMediaPorts := map[], map[], {};
      eventQueue, asyncTasks, connectionCount, streamCount := [], [], 0, 0;
      issued, ended, stopped, launched := {}, multiset{}, multiset{}, multiset{};
      ServerInvariants.InitialHolds(minMediaPort, maxMediaPort);
    }

    method DispatchAsyncCall(t: Task)
      modifies this`asyncTasks
      ensures View() == Spawn(old(View()), t)
    {
      asyncTasks := asyncTasks + [t];
    }

    method DispatchOnStreamEnded(channel: Channel, streamId: StreamId)
      modifies this`asyncTasks, this`ended
      ensures View() == DispatchEnded(old(View()), channel, streamId)
    {
      ended := ended + multiset{streamId};
      DispatchAsyncCall(CallStreamEnded(channel, streamId));
    }

    /** The search with its 16-bit counter, which passes from 65535 to 0. */
    method ReserveMediaPort() returns (r: Option<Port>)
      requires maxMediaPort < PORTS && minMediaPort < PORTS && SearchEnds(View())
      modifies this`usedMediaPorts
      ensures r == ReservePort(old(View()))
      ensures usedMediaPorts == if r.Some? then old(usedMediaPorts) + {r.value} else old(usedMediaPorts)
    {
      ghost var s := View();
      ghost var inRange := FreePorts(s, minMediaPort, maxMediaPort);
      ghost var below := FreePorts(s, 0, minMediaPort - 1);
      ghost var wrapped := false;
      var i: Port := minMediaPort;
      while i <= maxMediaPort
        invariant !wrapped ==> minMediaPort <= i <= Max(maxMediaPort + 1, minMediaPort) && i < PORTS
        invariant !wrapped ==> forall p :: p in inRange ==> i <= p
        invariant wrapped ==> inRange == {} && maxMediaPort == PORTS - 1 && forall p :: p in below ==> i <= p
        invariant wrapped ==> below != {} && i <= Least(below)
        invariant usedMediaPorts == s.usedPorts
        decreases !wrapped, PORTS - i
      {
        if i !in usedMediaPorts {
          assert wrapped ==> i < minMediaPort && i in below;
          assert !wrapped ==> i in inRange;
          usedMediaPorts := usedMediaPorts + {i};
          return Some(i);
        }
        if i + 1 == PORTS {
          assert inRange == {};
          wrapped := true;
        }
        i := (i + 1) % PORTS;
      }
      return None;
    }

    method RemoveRecord(stream: StreamRef)
      requires stream in activeStreams
      modifies this`usedMediaPorts, this`activeStreams
      ensures View() == RemoveStreamRecord(old(View()), stream)
    {
      usedMediaPorts := usedMediaPorts - {activeStreams[stream].port};
      activeStreams := activeStreams - {stream};
    }

    method EventStopStream(channel: Channel, streamId: StreamId)
      modifies this
      ensures View() == OnStopStream(old(View()), channel, streamId)
    {
      ghost var s := View();
      ghost var found := Matches(s, channel, streamId);
      var todo := activeStreams.Keys;
      while todo != {}
        invariant View() == s
        invariant todo <= activeStreams.Keys
        invariant found <= todo
        decreases |todo|
      {
        var st := Least(todo);
        if activeStreams[st].channel == channel && activeStreams[st].streamId == streamId {
          assert st in found;
          assert Least(found) == st;
          RemoveRecord(st);
          stopped := stopped + multiset{streamId};
          DispatchAsyncCall(RequestStop(st));
          return;
        }
        todo := todo - {st};
      }
      assert found == {};
    }

    method EventNewControlConnection(now: nat)
      modifies this
      ensures View() == OnNewControlConnection(old(View()), now)
    {
      pendingControlConnections := pendingControlConnections[connectionCount := now];
      connectionCount := connectionCount + 1;
    }

    method EventTerminateControlConnection(conn: Conn)
      modifies this
      ensures View() == OnTerminate(old(View()), conn)
    {
      if conn in pendingControlConnections {
        pendingControlConnections := pendingControlConnections - {conn};
        DispatchAsyncCall(Terminate(conn));
      }
    }

    method EventStreamIdAssigned(conn: Conn, channel: Channel, streamId: StreamId)
      requires minMediaPort < PORTS && maxMediaPort < PORTS
      requires conn in pendingControlConnections ==> SearchEnds(View())
      modifies this
      ensures View() == OnStreamIdAssigned(old(View()), conn, channel, streamId)
    {
      hide ReservePort;
      if conn !in pendingControlConnections {
        DispatchOnStreamEnded(channel, streamId);
        return;
      }
      var reserved := ReserveMediaPort();
      if reserved.None? {
        DispatchOnStreamEnded(channel, streamId);
        eventQueue := eventQueue + [TerminateControlConnection(conn)];
        return;
      }
      launched := launched + multiset{conn};
      DispatchAsyncCall(StartStream(conn, channel, streamId, reserved.value));
      pendingControlConnections := pendingControlConnections - {conn};
    }

    method EventStreamStarted(stream: StreamRef, channel: Channel, streamId: StreamId, port: Port)
      modifies this`activeStreams
      ensures View() == OnStreamStarted(old(View()), stream, Record(channel, streamId, port))
    {
      if stream !in activeStreams {
        activeStreams := activeStreams[stream := Record(channel, streamId, port)];
      }
    }

    method EventStreamStartFailed(channel: Channel, streamId: StreamId, port: Port)
      modifies this
      ensures View() == OnStreamStartFailed(old(View()), channel, streamId, port)
    {
      usedMediaPorts := usedMediaPorts - {port};
      DispatchOnStreamEnded(channel, streamId);
    }

    method EventStreamClosed(stream: StreamRef)
      modifies this
      ensures View() == OnStreamClosed(old(View()), stream)
    {
      if stream in activeStreams {
        var channel, streamId := activeStreams[stream].channel, activeStreams[stream].streamId;
        RemoveRecord(stream);
        DispatchOnStreamEnded(channel, streamId);
      }
    }

    method HandleEvent(event: Event, now: nat)
      requires minMediaPort < PORTS && maxMediaPort < PORTS && CanHandle(View(), event)
      modifies this
      ensures View() == Handle(old(View()), event, now)
    {
      hide OnStopStream, OnStreamIdAssigned, OnTerminate, OnStreamStarted, OnStreamStartFailed,
        OnStreamClosed, OnNewControlConnection, SearchEnds;
      match event
      case StopStream(ch, id) => EventStopStream(ch, id);
      case NewControlConnection => EventNewControlConnection(now);
      case ControlConnectionClosed(c) => pendingControlConnections := pendingControlConnections - {c};
      case ControlRequestHmacKey(c, ch) => DispatchAsyncCall(FetchKey(c, ch));
      case ControlHmacKeyFound(c) =>
        if c in pendingControlConnections {
          DispatchAsyncCall(ProvideKey(c));
        }
      case ControlRequestMediaPort(c, ch) => DispatchAsyncCall(CallStreamStarted(c, ch));
      case TerminateControlConnection(c) => EventTerminateControlConnection(c);
      case StreamIdAssigned(c, ch, id) => EventStreamIdAssigned(c, ch, id);
      case StreamStarted(st, ch, id, port) => EventStreamStarted(st, ch, id, port);
      case StreamStartFailed(ch, id, port) => EventStreamStartFailed(ch, id, port);
      case StreamClosed(st) => EventStreamClosed(st);
    }

    /** One turn of the event queue: ports, ids and connections stay accounted for. */
    method Process(now: nat)
      requires Valid() && Enabled(View(), Dispatch(now))
      modifies this
      ensures Valid() && View() == Apply(old(View()), Dispatch(now))
    {
      hide Handle, ServerInvariants.Invariant, SearchEnds;
      var event := eventQueue[0];
      eventQueue := eventQueue[1..];
      HandleEvent(event, now);
      ServerInvariants.StepKeeps(old(View()), Dispatch(now));
    }

    /** Connections, streams and the owner of the server queue events from outside. */
    method Enqueue(event: Event)
      requires Valid() && External(event)
      modifies this
      ensures Valid() && View() == Apply(old(View()), Arrive(event))
    {
      hide ServerInvariants.Invariant;
      eventQueue := eventQueue + [event];
      ServerInvariants.StepKeeps(old(View()), Arrive(event));
    }

    /** Shutting down: no connection is pending any more. */
    method Shutdown()
      requires Valid()
      modifies this
      ensures Valid() && View() == Apply(old(View()), Stop)
    {
      hide ServerInvariants.Invariant;
      pendingControlConnections := map[];
      ServerInvariants.StepKeeps(old(View()), Stop);
    }

    /** An asynchronous task comes to its end and queues what it found. */
    method TaskDone(i: nat, success: bool, streamId: StreamId)
      requires Valid() && Enabled(View(), Complete(i, success, streamId))
      modifies this
      ensures Valid() && View() == Apply(old(View()), Complete(i, success, streamId))
    {
      hide ServerInvariants.Invariant;
      var task := asyncTasks[i];
      asyncTasks := asyncTasks[..i] + asyncTasks[i + 1..];
      match task {
        case FetchKey(c, _) =>
          eventQueue := eventQueue + [if success then ControlHmacKeyFound(c) else TerminateControlConnection(c)];
        case CallStreamStarted(c, ch) =>
          if success {
            issued := issued + {streamId};
            eventQueue := eventQueue + [StreamIdAssigned(c, ch, streamId)];
          } else {
            eventQueue := eventQueue + [TerminateControlConnection(c)];
          }
        case StartStream(_, ch, id, port) =>
          if success {
            eventQueue := eventQueue + [StreamStarted(streamCount, ch, id, port)];
            streamCount := streamCount + 1;
          } else {
            eventQueue := eventQueue + [StreamStartFailed(ch, id, port)];
          }
        case _ =>
      }
      ServerInvariants.StepKeeps(old(View()), Complete(i, success, streamId));
    }

    /** Closes the pending connections that have taken too long. */
    method ExpirePending(now: nat)
      requires Valid()
      modifies this
      ensures Valid() && View() == ExpireAll(old(View()), old(pendingControlConnections).Keys, now)
    {
      hide ServerInvariants.Invariant;
      ghost var result := ExpireAll(View(), pendingControlConnections.Keys, now);
      var todo := pendingControlConnections.Keys;
      while todo != {}
        invariant Valid()
        invariant todo <= pendingControlConnections.Keys
        invariant ExpireAll(View(), todo, now) == result
        decreases |todo|
      {
        var c := Least(todo);
        if now - pendingControlConnections[c] > AUTH_TIMEOUT {
          ServerInvariants.TerminateKeeps(View(), c);
          EventTerminateControlConnection(c);
        }
        todo := todo - {c};
      }
    }
  }
}
