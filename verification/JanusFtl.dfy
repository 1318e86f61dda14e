/** src/JanusFtl.cpp and src/JanusStream.cpp: the plugin object and its stream objects, which
    hold their viewers themselves and are updated in place. */
module JanusFtl {
  import opened Collections
  import opened JanusRegistry

  class JanusStream {
    const streamId: StreamId
    var viewerSessions: set<Session>

    constructor (streamId: StreamId)
      ensures this.streamId == streamId && viewerSessions == {}
    {
      this.streamId := streamId;
      viewerSessions := {};
    }

    method AddViewerSession(h: Session)
      modifies this
      ensures viewerSessions == old(viewerSessions) + {h}
    {
      viewerSessions := viewerSessions + {h};
    }

    method RemoveViewerSession(h: Session)
      modifies this
      ensures viewerSessions == old(viewerSessions) - {h}
    {
      viewerSessions := viewerSessions - {h};
    }

    method RemoveAllViewerSessions() returns (removed: set<Session>)
      modifies this
      ensures viewerSessions == {} && removed == old(viewerSessions)
    {
      removed := viewerSessions;
      viewerSessions := {};
    }
  }

  class JanusFtl {
    const kind: NodeKind
    var streams: map<Channel, JanusStream>
    var sessions: map<Session, Option<Channel>>
    var pendingViewerSessions: map<Channel, set<Session>>
    var streamKeys: set<Channel>
    var messages: seq<Message>
    var stops: seq<(Channel, StreamId)>
    ghost var started: set<StreamId>
    ghost var ended: multiset<StreamId>

    /** Every channel has a stream object of its own. */
    ghost predicate Valid()
      reads this`streams
    {
      forall a, b :: a in streams && b in streams && a != b ==> streams[a] != streams[b]
    }

    ghost function Streams(): (m: map<Channel, Stream>)
      reads this`streams, streams.Values
      ensures m.Keys == streams.Keys && forall ch :: ch in streams ==> m[ch].streamId == streams[ch].streamId
    {
      map ch | ch in streams :: Stream(streams[ch].streamId, streams[ch].viewerSessions)
    }

    ghost function View(): Registry
      reads this, streams.Values
    {
      Registry(kind, Streams(), sessions, pendingViewerSessions, streamKeys, messages, stops, started, ended)
    }

    constructor (kind: NodeKind)
      ensures Valid() && View() == Initial(kind)
    {
      this.kind := kind;
      streams, sessions, pendingViewerSessions, streamKeys, messages, stops := map[], map[], map[], {}, [], [];
      started, ended := {}, multiset{};
    }

    method CreateSession(h: Session)
      modifies this`sessions
      ensures View() == JanusRegistry.CreateSession(old(View()), h)
    {
      hide Streams;
      sessions := sessions[h := None];
    }

    method Unsubscribe(ch: Channel)
      modifies this`streamKeys, this`messages
      ensures View() == JanusRegistry.Unsubscribe(old(View()), ch)
    {
      hide Streams;
      streamKeys := streamKeys - {ch};
      messages := messages + [Subscribe(false, ch)];
    }

    method DestroySession(h: Session)
      requires Valid()
      modifies this, streams.Values
      ensures Valid() && View() == JanusRegistry.DestroySession(old(View()), h)
    {
      hide Forget, LastViewer, Streams, JanusRegistry.Unsubscribe;
      if h !in sessions {
        return;
      }
      ghost var r := View();
      if sessions[h].Some? {
        var ch := sessions[h].value;
        var orchestratorUnsubscribe := RemoveViewer(h, ch);
        if orchestratorUnsubscribe {
          Unsubscribe(ch);
        }
      }
      EraseSession(h);
    }

    method EraseSession(h: Session)
      modifies this`sessions
      ensures View() == old(View()).(sessions := old(View()).sessions - {h})
    {
      hide Streams;
      sessions := sessions - {h};
    }

    method SetWatching(h: Session, ch: Channel)
      modifies this`sessions
      ensures View() == old(View()).(sessions := old(View()).sessions[h := Some(ch)])
    {
      hide Streams;
      sessions := sessions[h := Some(ch)];
    }

    method SendMessage(m: Message)
      modifies this`messages
      ensures View() == Send(old(View()), m)
    {
      hide Streams;
      messages := messages + [m];
    }

    method RemoveLive(ch: Channel, h: Session)
      requires Valid() && ch in streams
      modifies streams[ch]
      ensures Streams() == old(Streams())[ch := old(Streams())[ch].(viewers := old(Streams())[ch].viewers - {h})]
    {
      streams[ch].RemoveViewerSession(h);
    }

    method AddLive(ch: Channel, h: Session)
      requires Valid() && ch in streams
      modifies streams[ch]
      ensures View() == SetViewers(old(View()), ch, old(View()).streams[ch].viewers + {h})
    {
      streams[ch].AddViewerSession(h);
    }

    /** Takes the session out of the stream; whether it was the last viewer there. */
    method ForgetLive(h: Session, ch: Channel) returns (last: bool)
      requires Valid()
      modifies streams.Values
      ensures View() == JanusRegistry.ForgetLive(old(View()), h, ch)
      ensures last <==> ch in streams && old(Streams())[ch].viewers - {h} == {}
    {
      last := false;
      if ch in streams {
        RemoveLive(ch, h);
        last := streams[ch].viewerSessions == {};
      }
    }

    /** Takes the session out of the waiting list; whether it was the last one there. */
    method ForgetWaiting(h: Session, ch: Channel) returns (last: bool)
      modifies this`pendingViewerSessions
      ensures View() == JanusRegistry.ForgetWaiting(old(View()), h, ch)
      ensures last <==> h in Waiting(old(View()), ch) && Waiting(old(View()), ch) == {h}
    {
      hide Streams;
      last := false;
      if ch in pendingViewerSessions && h in pendingViewerSessions[ch] {
        ghost var before := pendingViewerSessions;
        var waiting := pendingViewerSessions[ch] - {h};
        pendingViewerSessions := pendingViewerSessions[ch := waiting];
        if waiting == {} {
          assert before[ch] == {h};
          last := true;
          pendingViewerSessions := pendingViewerSessions - {ch};
          assert pendingViewerSessions == before - {ch};
        }
      }
    }

    /** Takes the session out of the channel; whether an Edge node should then unsubscribe. */
    method RemoveViewer(h: Session, ch: Channel) returns (orchestratorUnsubscribe: bool)
      requires Valid()
      modifies this`pendingViewerSessions, streams.Values
      ensures View() == Forget(old(View()), h, ch)
      ensures orchestratorUnsubscribe <==> kind == Edge && LastViewer(old(View()), h, ch)
    {
      hide Streams, JanusRegistry.ForgetWaiting;
      orchestratorUnsubscribe := false;
      var lastLive := ForgetLive(h, ch);
      if kind == Edge && lastLive {
        orchestratorUnsubscribe := true;
      }
      var lastWaiting := ForgetWaiting(h, ch);
      if kind == Edge && lastWaiting {
        orchestratorUnsubscribe := true;
      }
    }

    method AddWaiting(ch: Channel, viewers: set<Session>)
      modifies this`pendingViewerSessions
      ensures View() == old(View()).(pending := old(View()).pending[ch := Waiting(old(View()), ch) + viewers])
    {
      hide Streams;
      if ch !in pendingViewerSessions {
        pendingViewerSessions := pendingViewerSessions[ch := {}];
      }
      pendingViewerSessions := pendingViewerSessions[ch := pendingViewerSessions[ch] + viewers];
    }

    method HandleWatchMessage(h: Session, ch: Channel)
      requires Valid()
      modifies this, streams.Values
      ensures Valid() && View() == Watch(old(View()), h, ch)
    {
      hide Streams;
      if kind == Ingest || h !in sessions {
        return;
      }
      SetWatching(h, ch);
      if ch !in streams {
        WaitForStream(h, ch);
      } else {
        AddLive(ch, h);
      }
    }

    /** The channel has no stream: subscribe if this is its first viewer, and wait. */
    method WaitForStream(h: Session, ch: Channel)
      requires ch !in streams
      modifies this`streamKeys, this`messages, this`pendingViewerSessions
      ensures
        var r := old(View());
        var first := kind == Edge && Waiting(r, ch) == {};
        View() == r.(keys := if first then r.keys + {ch} else r.keys,
                     messages := if first then r.messages + [Subscribe(true, ch)] else r.messages,
                     pending := r.pending[ch := Waiting(r, ch) + {h}])
    {
      hide Streams;
      var pendingViewers := if ch in pendingViewerSessions then |pendingViewerSessions[ch]| else 0;
      if kind == Edge && pendingViewers == 0 {
        ProvisionStreamKey(ch);
        SendMessage(Subscribe(true, ch));
      }
      AddWaiting(ch, {h});
    }

    method ProvisionStreamKey(ch: Channel)
      modifies this`streamKeys
      ensures View() == old(View()).(keys := old(View()).keys + {ch})
    {
      hide Streams;
      streamKeys := streamKeys + {ch};
    }

    /** Takes the stream object out of the table, and its viewers out of the object. */
    method DetachStream(ch: Channel) returns (viewers: set<Session>)
      requires Valid() && ch in streams
      modifies this`streams, streams[ch]
      ensures Valid() && streams.Values <= old(streams.Values)
      ensures View() == old(View()).(streams := old(View()).streams - {ch})
      ensures viewers == old(View()).streams[ch].viewers
    {
      viewers := streams[ch].RemoveAllViewerSessions();
      streams := streams - {ch};
      assert Streams() == old(Streams()) - {ch};
    }

    /** The service is told that a stream has ended. */
    method EndOnService(id: StreamId)
      modifies this`ended
      ensures View() == old(View()).(ended := old(View()).ended + multiset{id})
    {
      hide Streams;
      ended := ended + multiset{id};
    }

    method EndStream(ch: Channel, id: StreamId)
      requires Valid()
      modifies this, streams.Values
      ensures Valid() && streams.Values <= old(streams.Values)
      ensures View() == JanusRegistry.EndStream(old(View()), ch, id)
    {
      hide Streams, Waiting;
      if ch !in streams {
        return;
      }
      if streams[ch].streamId != id {
        return;
      }
      var viewerSessions := DetachStream(ch);
      assert Waiting(View(), ch) == Waiting(old(View()), ch) by { SameWaiting(View(), old(View()), ch); }
      AddWaiting(ch, viewerSessions);
      if kind == Ingest {
        SendMessage(Publish(false, ch, id));
      }
      EndOnService(id);
    }

    /** Puts a new stream object into the table and moves the waiting viewers over. */
    method AttachStream(ch: Channel, id: StreamId, waiting: set<Session>)
      requires Valid() && ch !in streams
      modifies this`streams
      ensures Valid() && View() == old(View()).(streams := old(View()).streams[ch := Stream(id, waiting)])
    {
      var stream := new JanusStream(id);
      var todo := waiting;
      while todo != {}
        invariant todo <= waiting
        invariant stream.viewerSessions == waiting - todo
        modifies stream
      {
        var h :| h in todo;
        stream.AddViewerSession(h);
        todo := todo - {h};
      }
      assert stream.viewerSessions == waiting;
      streams := streams[ch := stream];
      assert Streams() == old(Streams())[ch := Stream(id, waiting)];
    }

    method ForgetAllWaiting(ch: Channel)
      modifies this`pendingViewerSessions
      ensures View() == old(View()).(pending := old(View()).pending - {ch})
    {
      hide Streams;
      pendingViewerSessions := pendingViewerSessions - {ch};
    }

    /** The service issues a new stream id. */
    method StartOnService(id: StreamId)
      modifies this`started
      ensures View() == old(View()).(started := old(View()).started + {id})
    {
      hide Streams;
      started := started + {id};
    }

    /** The FTL server is asked to stop a stream. */
    method RequestStop(ch: Channel, id: StreamId)
      modifies this`stops
      ensures View() == AskStop(old(View()), ch, id)
    {
      hide Streams;
      stops := stops + [(ch, id)];
    }

    /** Makes room for a new stream on the channel. */
    method VacateChannel(ch: Channel)
      requires Valid()
      modifies this, streams.Values
      ensures Valid() && ch !in streams && View() == Vacate(old(View()), ch)
    {
      hide JanusRegistry.EndStream, Streams;
      VacateFrees(View(), ch);
      if ch in streams {
        var existing := streams[ch].streamId;
        RequestStop(ch, existing);
        EndStream(ch, existing);
      }
    }

    method StartStream(ch: Channel, id: StreamId)
      requires Valid()
      modifies this, streams.Values
      ensures Valid() && View() == StreamStarted(old(View()), ch, id)
    {
      hide Vacate, Streams;
      StartOnService(id);
      VacateFirst(old(View()), ch, id);
      VacateChannel(ch);
      AttachStream(ch, id, if ch in pendingViewerSessions then pendingViewerSessions[ch] else {});
      ForgetAllWaiting(ch);
      if kind == Ingest {
        SendMessage(Publish(true, ch, id));
      }
    }
  }

  lemma SameWaiting(r: Registry, u: Registry, ch: Channel)
    requires r.pending == u.pending
    ensures Waiting(r, ch) == Waiting(u, ch)
  {
  }

  /** Whether the id is issued before or after the previous stream ends makes no difference. */
  lemma VacateFirst(r: Registry, ch: Channel, id: StreamId)
    ensures
      var issued := r.(started := r.started + {id});
      Vacate(issued, ch) == Vacate(r, ch).(started := Vacate(r, ch).started + {id})
  {
  }
}
