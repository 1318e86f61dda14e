/** src/JanusFtl.cpp: which sessions watch which channel, live or waiting for a stream; what
    the service and the orchestrator have been told; and, on an Edge node, which channels
    hold a stream key (src/ServiceConnections/EdgeNodeServiceConnection.cpp). */
module JanusRegistry {
  import opened Collections

  type Channel = nat
  type StreamId = nat
  type Session = nat

  datatype NodeKind = Standalone | Ingest | Edge

  datatype Stream = Stream(streamId: StreamId, viewers: set<Session>)

  datatype Message =
    | Publish(on: bool, channel: Channel, streamId: StreamId)
    | Subscribe(on: bool, channel: Channel)

  datatype Registry = Registry(
    kind: NodeKind,
    streams: map<Channel, Stream>,
    sessions: map<Session, Option<Channel>>,
    pending: map<Channel, set<Session>>,
    keys: set<Channel>,
    messages: seq<Message>,
    stops: seq<(Channel, StreamId)>,
    started: set<StreamId>,
    ended: multiset<StreamId>)

  function Initial(kind: NodeKind): Registry {
    Registry(kind, map[], map[], map[], {}, [], [], {}, multiset{})
  }

  function Waiting(r: Registry, ch: Channel): set<Session> {
    if ch in r.pending then r.pending[ch] else {}
  }

  function Live(r: Registry, ch: Channel): set<Session> {
    if ch in r.streams then r.streams[ch].viewers else {}
  }

  function Send(r: Registry, m: Message): Registry {
    r.(messages := r.messages + [m])
  }

  function SetViewers(r: Registry, ch: Channel, viewers: set<Session>): Registry
    requires ch in r.streams
  {
    r.(streams := r.streams[ch := r.streams[ch].(viewers := viewers)])
  }

  // ---------------------------------------------------------------------------
  // Operations

  function CreateSession(r: Registry, h: Session): Registry {
    r.(sessions := r.sessions[h := None])
  }

  function Unsubscribe(r: Registry, ch: Channel): Registry {
    Send(r.(keys := r.keys - {ch}), Subscribe(false, ch))
  }

  function ForgetLive(r: Registry, h: Session, ch: Channel): Registry {
    if ch in r.streams then SetViewers(r, ch, r.streams[ch].viewers - {h}) else r
  }

  function ForgetWaiting(r: Registry, h: Session, ch: Channel): Registry {
    if h !in Waiting(r, ch) then r
    else if Waiting(r, ch) == {h} then r.(pending := r.pending - {ch})
    else r.(pending := r.pending[ch := r.pending[ch] - {h}])
  }

  /** The first two parts of DestroySession: take the session out of the stream it watches
      and of the channel's waiting list. */
  function Forget(r: Registry, h: Session, ch: Channel): Registry {
    ForgetWaiting(ForgetLive(r, h, ch), h, ch)
  }

  /** Whether the session was the last viewer, by either list. */
  predicate LastViewer(r: Registry, h: Session, ch: Channel) {
    || (ch in r.streams && r.streams[ch].viewers - {h} == {})
    || (h in Waiting(r, ch) && Waiting(r, ch) == {h})
  }

  function DestroySession(r: Registry, h: Session): Registry {
    if h !in r.sessions then r
    else
      var r1 := match r.sessions[h]
        case None => r
        case Some(ch) =>
          if r.kind == Edge && LastViewer(r, h, ch) then Unsubscribe(Forget(r, h, ch), ch) else Forget(r, h, ch);
      r1.(sessions := r1.sessions - {h})
  }

  function Watch(r: Registry, h: Session, ch: Channel): Registry {
    if r.kind == Ingest || h !in r.sessions then r
    else
      var r1 := r.(sessions := r.sessions[h := Some(ch)]);
      if ch in r.streams then SetViewers(r1, ch, r.streams[ch].viewers + {h})
      else
        var r2 := if r.kind == Edge && Waiting(r, ch) == {}
                  then Send(r1.(keys := r1.keys + {ch}), Subscribe(true, ch)) else r1;
        r2.(pending := r2.pending[ch := Waiting(r, ch) + {h}])
  }

  function EndStream(r: Registry, ch: Channel, id: StreamId): Registry {
    if ch !in r.streams || r.streams[ch].streamId != id then r
    else
      var r1 := r.(pending := r.pending[ch := Waiting(r, ch) + r.streams[ch].viewers]);
      var r2 := if r.kind == Ingest then Send(r1, Publish(false, ch, id)) else r1;
      r2.(ended := r2.ended + multiset{id}, streams := r2.streams - {ch})
  }

  /** The FTL server is asked to stop a stream. */
  function AskStop(r: Registry, ch: Channel, id: StreamId): Registry {
    r.(stops := r.stops + [(ch, id)])
  }

  /** Stops and ends the channel's previous stream, if any. */
  function Vacate(r: Registry, ch: Channel): Registry {
    if ch in r.streams then EndStream(AskStop(r, ch, r.streams[ch].streamId), ch, r.streams[ch].streamId) else r
  }

  function StreamStarted(r: Registry, ch: Channel, id: StreamId): Registry {
    var r2 := Vacate(r, ch);
    var r3 := r2.(started := r2.started + {id}, streams := r2.streams[ch := Stream(id, Waiting(r2, ch))],
                  pending := r2.pending - {ch});
    if r.kind == Ingest then Send(r3, Publish(true, ch, id)) else r3
  }

  // ---------------------------------------------------------------------------
  // Runs

  datatype Step =
    | Create(h: Session)
    | Watching(h: Session, ch: Channel)
    | Destroy(h: Session)
    | Started(ch: Channel, id: StreamId)
    | Ended(ch: Channel, id: StreamId)

  /** Handles and stream ids are new when they are created.  Anything else may happen at any time. */
  predicate Enabled(r: Registry, s: Step) {
    match s
    case Create(h) => h !in r.sessions
    case Started(_, id) => id !in r.started
    case _ => true
  }

  function Apply(r: Registry, s: Step): Registry {
    match s
    case Create(h) => CreateSession(r, h)
    case Watching(h, ch) => Watch(r, h, ch)
    case Destroy(h) => DestroySession(r, h)
    case Started(ch, id) => StreamStarted(r, ch, id)
    case Ended(ch, id) => EndStream(r, ch, id)
  }

  ghost predicate CanRun(r: Registry, steps: seq<Step>)
    decreases |steps|
  {
    steps != [] ==> Enabled(r, steps[0]) && CanRun(Apply(r, steps[0]), steps[1..])
  }

  /** No session goes on to watch a second channel. */
  predicate Loyal(r: Registry, s: Step) {
    s.Watching? && s.h in r.sessions ==> r.sessions[s.h] == None || r.sessions[s.h] == Some(s.ch)
  }

  ghost predicate LoyalRun(r: Registry, steps: seq<Step>)
    decreases |steps|
  {
    steps != [] ==> Loyal(r, steps[0]) && LoyalRun(Apply(r, steps[0]), steps[1..])
  }

  ghost function Run(r: Registry, steps: seq<Step>): Registry
    decreases |steps|
  {
    if steps == [] then r else Run(Apply(r, steps[0]), steps[1..])
  }

  // ---------------------------------------------------------------------------
  // Stream accounting

  ghost function Ids(r: Registry): map<Channel, StreamId> {
    map ch | ch in r.streams :: r.streams[ch].streamId
  }

  /** The ids the service started are those live on some channel, each on one, and those
      passed to EndStream, each once; never both. */
  ghost predicate Books(ids: map<Channel, StreamId>, started: set<StreamId>, ended: multiset<StreamId>) {
    && (forall ch :: ch in ids ==> ids[ch] in started && ids[ch] !in ended)
    && (forall a, b :: a in ids && b in ids && a != b ==> ids[a] != ids[b])
    && (forall id :: id in ended ==> id in started && ended[id] == 1)
    && (forall id :: id in started ==> id in ended || exists ch :: ch in ids && ids[ch] == id)
  }

  /** The channels and streams the orchestrator believes published. */
  ghost function Published(ms: seq<Message>): map<Channel, StreamId> {
    if ms == [] then map[]
    else
      var before := Published(ms[..|ms| - 1]);
      match ms[|ms| - 1]
      case Publish(true, ch, id) => before[ch := id]
      case Publish(false, ch, id) => if ch in before && before[ch] == id then before - {ch} else before
      case _ => before
  }

  ghost predicate Accounted(r: Registry) {
    && Books(Ids(r), r.started, r.ended)
    && (r.kind == Ingest ==> Published(r.messages) == Ids(r))
  }

  lemma BooksEnd(ids: map<Channel, StreamId>, started: set<StreamId>, ended: multiset<StreamId>, ch: Channel)
    requires Books(ids, started, ended) && ch in ids
    ensures Books(ids - {ch}, started, ended + multiset{ids[ch]})
  {
    var (rest, more) := (ids - {ch}, ended + multiset{ids[ch]});
    forall id | id in started ensures id in more || exists c :: c in rest && rest[c] == id {
      if id !in more {
        var c :| c in ids && ids[c] == id;
        assert c in rest && rest[c] == id;
      }
    }
  }

  lemma BooksStart(ids: map<Channel, StreamId>, started: set<StreamId>, ended: multiset<StreamId>,
                   ch: Channel, id: StreamId)
    requires Books(ids, started, ended) && ch !in ids && id !in started
    ensures Books(ids[ch := id], started + {id}, ended)
  {
    var more := ids[ch := id];
    forall i | i in started + {id} ensures i in ended || exists c :: c in more && more[c] == i {
      if i == id {
        assert more[ch] == id;
      } else if i !in ended {
        var c :| c in ids && ids[c] == i;
        assert more[c] == i;
      }
    }
  }

  lemma PublishedSend(r: Registry, m: Message)
    ensures Published(Send(r, m).messages) ==
      match m
      case Publish(true, ch, id) => Published(r.messages)[ch := id]
      case Publish(false, ch, id) =>
        if ch in Published(r.messages) && Published(r.messages)[ch] == id then Published(r.messages) - {ch}
        else Published(r.messages)
      case _ => Published(r.messages)
  {
    assert Send(r, m).messages[..|r.messages|] == r.messages;
  }

  lemma EndAccounted(r: Registry, ch: Channel, id: StreamId)
    requires Accounted(r)
    ensures Accounted(EndStream(r, ch, id))
  {
    hide Books, Published;
    var u := EndStream(r, ch, id);
    if ch in r.streams && r.streams[ch].streamId == id {
      BooksEnd(Ids(r), r.started, r.ended, ch);
      PublishedSend(r, Publish(false, ch, id));
      assert Ids(u) == Ids(r) - {ch};
    }
  }

  lemma VacateFrees(r: Registry, ch: Channel)
    ensures ch !in Vacate(r, ch).streams
    ensures Vacate(r, ch).started == r.started && Vacate(r, ch).kind == r.kind
  {
  }

  lemma StartAccounted(r: Registry, ch: Channel, id: StreamId)
    requires Accounted(r) && id !in r.started
    ensures Accounted(StreamStarted(r, ch, id))
  {
    hide Books, Published, EndStream;
    var v := Vacate(r, ch);
    VacateFrees(r, ch);
    if ch in r.streams {
      var asked := AskStop(r, ch, r.streams[ch].streamId);
      assert Ids(asked) == Ids(r);
      EndAccounted(asked, ch, r.streams[ch].streamId);
    }
    BooksStart(Ids(v), v.started, v.ended, ch, id);
    PublishedSend(v, Publish(true, ch, id));
    var u := StreamStarted(r, ch, id);
    assert Ids(u) == Ids(v)[ch := id];
  }

  lemma SameIdsAccounted(r: Registry, u: Registry)
    requires Accounted(r) && u.kind == r.kind && u.started == r.started && u.ended == r.ended
    requires Ids(u) == Ids(r) && (r.kind == Ingest ==> u.messages == r.messages)
    ensures Accounted(u)
  {
  }

  lemma CreateKeepsIds(r: Registry, h: Session)
    ensures Ids(CreateSession(r, h)) == Ids(r)
  {
  }

  lemma WatchKeepsIds(r: Registry, h: Session, ch: Channel)
    ensures Ids(Watch(r, h, ch)) == Ids(r)
  {
  }

  lemma DestroyKeepsIds(r: Registry, h: Session)
    ensures Ids(DestroySession(r, h)) == Ids(r)
  {
    hide LastViewer;
    if h in r.sessions && r.sessions[h].Some? {
      assert Ids(Forget(r, h, r.sessions[h].value)) == Ids(r);
    }
  }

  lemma StepAccounted(r: Registry, s: Step)
    requires Accounted(r) && Enabled(r, s)
    ensures Accounted(Apply(r, s))
  {
    hide Accounted, Ids, StreamStarted, EndStream;
    match s
    case Started(ch, id) => StartAccounted(r, ch, id);
    case Ended(ch, id) => EndAccounted(r, ch, id);
    case Create(h) =>
      CreateKeepsIds(r, h);
      SameIdsAccounted(r, Apply(r, s));
    case Watching(h, ch) =>
      WatchKeepsIds(r, h, ch);
      SameIdsAccounted(r, Apply(r, s));
    case Destroy(h) =>
      DestroyKeepsIds(r, h);
      SameIdsAccounted(r, Apply(r, s));
  }

  lemma {:induction false} RunAccounted(r: Registry, steps: seq<Step>)
    requires Accounted(r) && CanRun(r, steps)
    ensures Accounted(Run(r, steps))
    decreases |steps|
  {
    hide Accounted, Apply, Enabled;
    if steps != [] {
      StepAccounted(r, steps[0]);
      RunAccounted(Apply(r, steps[0]), steps[1..]);
    }
  }

  /** Stream accounting, in every run on every kind of node: the ids started are, each exactly
      once, live on one channel or ended; and on an Ingest node the publish messages, folded
      in order, give exactly the live channels and their streams. */
  lemma StreamAccounting(kind: NodeKind, steps: seq<Step>)
    requires CanRun(Initial(kind), steps)
    ensures
      var r := Run(Initial(kind), steps);
      && Books(Ids(r), r.started, r.ended)
      && (kind == Ingest ==> Published(r.messages) == Ids(r))
  {
    assert Accounted(Initial(kind)) by { assert Ids(Initial(kind)) == map[]; }
    RunAccounted(Initial(kind), steps);
    RunKind(Initial(kind), steps);
  }

  lemma {:induction false} RunKind(r: Registry, steps: seq<Step>)
    ensures Run(r, steps).kind == r.kind
    decreases |steps|
  {
    if steps != [] { RunKind(Apply(r, steps[0]), steps[1..]); }
  }

  /** The late end of a stream, at any time after it has ended or been replaced, on whatever
      channel it is reported, changes nothing. */
  lemma LateEndIsIgnored(kind: NodeKind, steps: seq<Step>, ch: Channel, late: StreamId)
    requires CanRun(Initial(kind), steps) && late in Run(Initial(kind), steps).ended
    ensures EndStream(Run(Initial(kind), steps), ch, late) == Run(Initial(kind), steps)
  {
    StreamAccounting(kind, steps);
    var r := Run(Initial(kind), steps);
    if ch in r.streams {
      assert Ids(r)[ch] == r.streams[ch].streamId;
    }
  }

  /** A replaced stream is ended, and the server is asked to stop it. */
  lemma ReplacedIsEnded(r: Registry, ch: Channel, id: StreamId)
    requires ch in r.streams
    ensures
      var (u, before) := (StreamStarted(r, ch, id), r.streams[ch].streamId);
      && u.ended == r.ended + multiset{before}
      && u.stops == r.stops + [(ch, before)]
      && u.streams == r.streams[ch := Stream(id, Waiting(r, ch) + Live(r, ch))]
  {
    var v := Vacate(r, ch);
    assert Waiting(v, ch) == Waiting(r, ch) + Live(r, ch);
    assert v.streams == r.streams - {ch};
    assert (r.streams - {ch})[ch := Stream(id, Waiting(v, ch))] == r.streams[ch := Stream(id, Waiting(v, ch))];
  }

  // ---------------------------------------------------------------------------
  // Viewers

  predicate Watches(r: Registry, h: Session, ch: Channel) {
    h in r.sessions && r.sessions[h] == Some(ch)
  }

  /** A session watches a channel just when it is in the channel's stream or waiting list;
      and there is no waiting for a channel that has a stream. */
  ghost predicate Consistent(r: Registry) {
    && (forall ch, h :: Watches(r, h, ch) <==> h in Live(r, ch) || h in Waiting(r, ch))
    && (forall ch :: ch in r.streams ==> Waiting(r, ch) == {})
  }

  lemma EndConsistent(r: Registry, ch: Channel, id: StreamId)
    requires Consistent(r)
    ensures Consistent(EndStream(r, ch, id))
  {
    var u := EndStream(r, ch, id);
    forall c, h ensures Watches(u, h, c) <==> h in Live(u, c) || h in Waiting(u, c) {
      assert Watches(r, h, c) <==> h in Live(r, c) || h in Waiting(r, c);
    }
  }

  lemma AskStopConsistent(r: Registry, ch: Channel)
    requires Consistent(r) && ch in r.streams
    ensures Consistent(AskStop(r, ch, r.streams[ch].streamId))
  {
    var u := AskStop(r, ch, r.streams[ch].streamId);
    forall c, h ensures Watches(u, h, c) <==> h in Live(u, c) || h in Waiting(u, c) {
      assert Watches(r, h, c) <==> h in Live(r, c) || h in Waiting(r, c);
    }
  }

  lemma StartConsistent(r: Registry, ch: Channel, id: StreamId)
    requires Consistent(r)
    ensures Consistent(StreamStarted(r, ch, id))
  {
    hide EndStream;
    var v := Vacate(r, ch);
    VacateFrees(r, ch);
    if ch in r.streams {
      AskStopConsistent(r, ch);
      EndConsistent(AskStop(r, ch, r.streams[ch].streamId), ch, r.streams[ch].streamId);
    }
    var u := StreamStarted(r, ch, id);
    forall c, h ensures Watches(u, h, c) <==> h in Live(u, c) || h in Waiting(u, c) {
      assert Watches(v, h, c) <==> h in Live(v, c) || h in Waiting(v, c);
    }
  }

  lemma WatchEffect(r: Registry, h: Session, ch: Channel)
    requires r.kind != Ingest && h in r.sessions
    ensures
      var u := Watch(r, h, ch);
      var first := r.kind == Edge && ch !in r.streams && Waiting(r, ch) == {};
      && u.sessions == r.sessions[h := Some(ch)] && u.kind == r.kind && u.streams.Keys == r.streams.Keys
      && (forall c :: Live(u, c) == if c == ch && ch in r.streams then Live(r, c) + {h} else Live(r, c))
      && (forall c :: Waiting(u, c) == if c == ch && ch !in r.streams then Waiting(r, c) + {h} else Waiting(r, c))
      && u.keys == (if first then r.keys + {ch} else r.keys)
      && u.messages == (if first then r.messages + [Subscribe(true, ch)] else r.messages)
  {
  }

  lemma WatchConsistent(r: Registry, h: Session, ch: Channel)
    requires Consistent(r) && Loyal(r, Watching(h, ch))
    ensures Consistent(Watch(r, h, ch))
  {
    if r.kind != Ingest && h in r.sessions {
      WatchEffect(r, h, ch);
      hide Watch;
      var u := Watch(r, h, ch);
      forall c, g ensures Watches(u, g, c) <==> g in Live(u, c) || g in Waiting(u, c) {
        assert Watches(r, g, c) <==> g in Live(r, c) || g in Waiting(r, c);
      }
    }
  }

  /** A session that has been created can watch any channel, and nobody else is affected. */
  lemma CreatedCanWatch(r: Registry, h: Session, ch: Channel)
    requires Consistent(r) && r.kind != Ingest && h !in r.sessions
    ensures
      var u := Watch(CreateSession(r, h), h, ch);
      && Watches(u, h, ch) && h in Live(u, ch) + Waiting(u, ch)
      && forall g, c :: g != h ==> (Watches(u, g, c) <==> Watches(r, g, c))
  {
    WatchEffect(CreateSession(r, h), h, ch);
    hide Watch;
  }

  lemma ForgetEffect(r: Registry, h: Session, ch: Channel)
    ensures
      var u := Forget(r, h, ch);
      && u.sessions == r.sessions && u.keys == r.keys && u.messages == r.messages && u.kind == r.kind
      && u.streams.Keys == r.streams.Keys
      && (forall c :: Live(u, c) == if c == ch then Live(r, c) - {h} else Live(r, c))
      && (forall c :: Waiting(u, c) == if c == ch then Waiting(r, c) - {h} else Waiting(r, c))
  {
  }

  lemma DestroyConsistent(r: Registry, h: Session)
    requires Consistent(r)
    ensures Consistent(DestroySession(r, h))
  {
    hide LastViewer, Forget;
    if h in r.sessions {
      if r.sessions[h].Some? { ForgetEffect(r, h, r.sessions[h].value); }
      var u := DestroySession(r, h);
      forall c, g ensures Watches(u, g, c) <==> g in Live(u, c) || g in Waiting(u, c) {
        assert Watches(r, g, c) <==> g in Live(r, c) || g in Waiting(r, c);
      }
    }
  }

  lemma CreateConsistent(r: Registry, h: Session)
    requires Consistent(r) && h !in r.sessions
    ensures Consistent(CreateSession(r, h))
  {
    var u := CreateSession(r, h);
    forall c, g ensures Watches(u, g, c) <==> g in Live(u, c) || g in Waiting(u, c) {
      assert Watches(r, g, c) <==> g in Live(r, c) || g in Waiting(r, c);
    }
  }

  lemma StepConsistent(r: Registry, s: Step)
    requires Consistent(r) && Enabled(r, s) && Loyal(r, s)
    ensures Consistent(Apply(r, s))
  {
    hide Consistent, Watch, DestroySession, StreamStarted, EndStream;
    match s
    case Create(h) => CreateConsistent(r, h);
    case Watching(h, ch) => WatchConsistent(r, h, ch);
    case Destroy(h) => DestroyConsistent(r, h);
    case Started(ch, id) => StartConsistent(r, ch, id);
    case Ended(ch, id) => EndConsistent(r, ch, id);
  }

  /** A session that goes on to another channel is what breaks it, and nothing else does:
      it is not taken out of the channel it watched before. */
  lemma WatchKeepsConsistentIff(r: Registry, h: Session, ch: Channel)
    requires Consistent(r) && r.kind != Ingest && h in r.sessions
    ensures Consistent(Watch(r, h, ch)) <==> r.sessions[h] == None || r.sessions[h] == Some(ch)
  {
    if Loyal(r, Watching(h, ch)) {
      WatchConsistent(r, h, ch);
    } else {
      var before := r.sessions[h].value;
      var u := Watch(r, h, ch);
      WatchEffect(r, h, ch);
      assert Watches(r, h, before);
      assert !Watches(u, h, before) && (h in Live(u, before) || h in Waiting(u, before));
    }
  }

  // ---------------------------------------------------------------------------
  // Subscriptions of an Edge node

  /** The channels the orchestrator believes subscribed. */
  ghost function Subscribed(ms: seq<Message>): set<Channel> {
    if ms == [] then {} else Heed(Subscribed(ms[..|ms| - 1]), ms[|ms| - 1])
  }

  function Heed(subscribed: set<Channel>, m: Message): set<Channel> {
    if !m.Subscribe? then subscribed
    else if m.on then subscribed + {m.channel}
    else subscribed - {m.channel}
  }

  /** The stream keys are those of the subscribed channels, and each has a viewer. */
  ghost predicate NoLeak(r: Registry) {
    && r.keys == Subscribed(r.messages)
    && (forall ch :: ch in r.keys ==> Live(r, ch) + Waiting(r, ch) != {})
  }

  lemma SubscribedSnoc(ms: seq<Message>, m: Message)
    ensures Subscribed(ms + [m]) == Heed(Subscribed(ms), m)
  {
    assert (ms + [m])[..|ms|] == ms;
  }

  lemma WatchNoLeak(r: Registry, h: Session, ch: Channel)
    requires NoLeak(r)
    ensures NoLeak(Watch(r, h, ch))
  {
    if r.kind != Ingest && h in r.sessions {
      WatchEffect(r, h, ch);
      SubscribedSnoc(r.messages, Subscribe(true, ch));
      var u := Watch(r, h, ch);
      hide Watch, Subscribed;
      forall c | c in u.keys ensures Live(u, c) + Waiting(u, c) != {} {
        assert c == ch ==> h in Live(u, c) + Waiting(u, c);
        assert c != ch ==> Live(u, c) + Waiting(u, c) == Live(r, c) + Waiting(r, c);
      }
    }
  }

  lemma DestroyEffect(r: Registry, h: Session, ch: Channel)
    requires h in r.sessions && r.sessions[h] == Some(ch) && r.kind == Edge
    ensures
      var (u, last) := (DestroySession(r, h), LastViewer(r, h, ch));
      && u.keys == (if last then r.keys - {ch} else r.keys)
      && u.messages == (if last then r.messages + [Subscribe(false, ch)] else r.messages)
      && (forall c :: Live(u, c) == if c == ch then Live(r, c) - {h} else Live(r, c))
      && (forall c :: Waiting(u, c) == if c == ch then Waiting(r, c) - {h} else Waiting(r, c))
  {
    ForgetEffect(r, h, ch);
    hide Forget, LastViewer;
  }

  lemma DestroyNoLeak(r: Registry, h: Session)
    requires NoLeak(r) && Consistent(r) && r.kind == Edge
    ensures NoLeak(DestroySession(r, h))
  {
    if h in r.sessions && r.sessions[h].Some? {
      WatchedNoLeak(r, h, r.sessions[h].value);
    } else {
      var u := DestroySession(r, h);
      assert forall c :: Live(u, c) + Waiting(u, c) == Live(r, c) + Waiting(r, c);
    }
  }

  lemma WatchedNoLeak(r: Registry, h: Session, ch: Channel)
    requires NoLeak(r) && Consistent(r) && r.kind == Edge && Watches(r, h, ch)
    ensures NoLeak(DestroySession(r, h))
  {
    hide DestroySession, Subscribed;
    var u := DestroySession(r, h);
    DestroyEffect(r, h, ch);
    SubscribedSnoc(r.messages, Subscribe(false, ch));
    forall c | c in u.keys ensures Live(u, c) + Waiting(u, c) != {} {
      assert Live(r, c) + Waiting(r, c) != {};
      if c != ch {
        assert Live(u, c) + Waiting(u, c) == Live(r, c) + Waiting(r, c);
      }
    }
  }

  lemma EndEffect(r: Registry, ch: Channel, id: StreamId)
    requires r.kind != Ingest
    ensures
      var u := EndStream(r, ch, id);
      && u.keys == r.keys && u.messages == r.messages && u.kind == r.kind
      && (forall c :: Live(u, c) + Waiting(u, c) == Live(r, c) + Waiting(r, c))
  {
    var u := EndStream(r, ch, id);
    forall c ensures Live(u, c) + Waiting(u, c) == Live(r, c) + Waiting(r, c) {
    }
  }

  lemma StartEffect(r: Registry, ch: Channel, id: StreamId)
    requires r.kind != Ingest
    ensures
      var u := StreamStarted(r, ch, id);
      && u.keys == r.keys && u.messages == r.messages && u.kind == r.kind
      && (forall c :: Live(u, c) + Waiting(u, c) == Live(r, c) + Waiting(r, c))
  {
    hide EndStream;
    var v := Vacate(r, ch);
    VacateFrees(r, ch);
    if ch in r.streams {
      var asked := AskStop(r, ch, r.streams[ch].streamId);
      assert forall c :: Live(asked, c) == Live(r, c) && Waiting(asked, c) == Waiting(r, c);
      EndEffect(asked, ch, r.streams[ch].streamId);
    }
    var u := StreamStarted(r, ch, id);
    forall c ensures Live(u, c) + Waiting(u, c) == Live(r, c) + Waiting(r, c) {
      assert Live(v, c) + Waiting(v, c) == Live(r, c) + Waiting(r, c);
      assert Live(u, c) + Waiting(u, c) == Live(v, c) + Waiting(v, c);
    }
  }

  lemma StepNoLeak(r: Registry, s: Step)
    requires NoLeak(r) && Consistent(r) && r.kind == Edge && Enabled(r, s)
    ensures NoLeak(Apply(r, s))
  {
    hide Consistent, Subscribed, Watch, DestroySession, StreamStarted, EndStream;
    match s
    case Create(h) =>
      assert forall ch :: Live(Apply(r, s), ch) + Waiting(Apply(r, s), ch) == Live(r, ch) + Waiting(r, ch);
    case Watching(h, ch) => WatchNoLeak(r, h, ch);
    case Destroy(h) => DestroyNoLeak(r, h);
    case Started(ch, id) => StartEffect(r, ch, id);
    case Ended(ch, id) => EndEffect(r, ch, id);
  }

  lemma {:induction false} RunConsistent(r: Registry, steps: seq<Step>)
    requires Consistent(r) && CanRun(r, steps) && LoyalRun(r, steps)
    requires r.kind == Edge ==> NoLeak(r)
    ensures Consistent(Run(r, steps)) && (r.kind == Edge ==> NoLeak(Run(r, steps)))
    decreases |steps|
  {
    hide Consistent, NoLeak, Apply, Enabled, Loyal;
    if steps != [] {
      StepConsistent(r, steps[0]);
      if r.kind == Edge { StepNoLeak(r, steps[0]); }
      RunKind(r, [steps[0]]);
      assert Run(r, [steps[0]]) == Apply(r, steps[0]) by { assert [steps[0]][1..] == []; }
      RunConsistent(Apply(r, steps[0]), steps[1..]);
    }
  }

  ghost function Watchers(r: Registry, ch: Channel): set<Session> {
    set h | h in r.sessions && r.sessions[h] == Some(ch)
  }

  /** Viewer conservation: in every run in which no session goes on to a second channel, the
      sessions watching a channel are the disjoint union of its live and its waiting viewers,
      and none waits for a channel that has a stream. */
  lemma ViewerConservation(kind: NodeKind, steps: seq<Step>, ch: Channel)
    requires CanRun(Initial(kind), steps) && LoyalRun(Initial(kind), steps)
    ensures
      var r := Run(Initial(kind), steps);
      && Watchers(r, ch) == Live(r, ch) + Waiting(r, ch)
      && Live(r, ch) !! Waiting(r, ch)
      && (ch in r.streams ==> Waiting(r, ch) == {})
  {
    RunConsistent(Initial(kind), steps);
    var r := Run(Initial(kind), steps);
    forall h ensures h in Watchers(r, ch) <==> h in Live(r, ch) + Waiting(r, ch) {
      assert Watches(r, h, ch) <==> h in Live(r, ch) || h in Waiting(r, ch);
    }
  }

  /** Edge subscriptions do not leak: in every such run of an Edge node, the channels holding a
      stream key are exactly those the messages sent leave subscribed, and each has a viewer. */
  lemma SubscriptionsDoNotLeak(steps: seq<Step>)
    requires CanRun(Initial(Edge), steps) && LoyalRun(Initial(Edge), steps)
    ensures
      var r := Run(Initial(Edge), steps);
      && r.keys == Subscribed(r.messages)
      && (forall ch :: ch in r.keys ==> Live(r, ch) + Waiting(r, ch) != {})
  {
    RunConsistent(Initial(Edge), steps);
  }

  // ---------------------------------------------------------------------------
  // Waiting for a channel nobody relays

  /** On an Edge node, every channel somebody waits for is subscribed. */
  ghost predicate WaitersSubscribed(r: Registry) {
    forall ch :: Waiting(r, ch) != {} ==> ch in r.keys
  }

  /** The end of a stream that has viewers, on a channel that is not subscribed. */
  predicate Strands(r: Registry, s: Step) {
    s.Ended? && s.ch in r.streams && r.streams[s.ch].streamId == s.id && Live(r, s.ch) != {} && s.ch !in r.keys
  }

  lemma EndKeepsWaitersIff(r: Registry, ch: Channel, id: StreamId)
    requires WaitersSubscribed(r)
    ensures WaitersSubscribed(EndStream(r, ch, id)) <==> !Strands(r, Ended(ch, id))
  {
    var u := EndStream(r, ch, id);
    if ch in r.streams && r.streams[ch].streamId == id {
      assert Waiting(u, ch) == Waiting(r, ch) + Live(r, ch);
      assert forall c :: c != ch ==> Waiting(u, c) == Waiting(r, c);
    }
  }

  lemma StartKeepsWaiters(r: Registry, ch: Channel, id: StreamId)
    requires WaitersSubscribed(r)
    ensures WaitersSubscribed(StreamStarted(r, ch, id))
  {
    var u := StreamStarted(r, ch, id);
    assert u.keys == r.keys && Waiting(u, ch) == {};
    assert forall c :: c != ch ==> Waiting(u, c) == Waiting(r, c);
  }

  lemma WatchKeepsWaiters(r: Registry, h: Session, ch: Channel)
    requires WaitersSubscribed(r) && r.kind == Edge
    ensures WaitersSubscribed(Watch(r, h, ch))
  {
    if h in r.sessions {
      WatchEffect(r, h, ch);
      hide Watch;
    }
  }

  lemma DestroyKeepsWaiters(r: Registry, h: Session)
    requires WaitersSubscribed(r) && Consistent(r) && r.kind == Edge
    ensures WaitersSubscribed(DestroySession(r, h))
  {
    if h in r.sessions && r.sessions[h].Some? {
      var ch := r.sessions[h].value;
      DestroyEffect(r, h, ch);
      hide DestroySession;
    }
  }

  /** Every step keeps it but the one that strands viewers, which breaks it. */
  lemma StepKeepsWaitersIff(r: Registry, s: Step)
    requires WaitersSubscribed(r) && Consistent(r) && r.kind == Edge
    ensures WaitersSubscribed(Apply(r, s)) <==> !Strands(r, s)
  {
    hide Consistent, Watch, DestroySession, StreamStarted, EndStream, Strands;
    if !s.Ended? { NotEnded(r, s); }
    match s
    case Create(h) => assert forall ch :: Waiting(Apply(r, s), ch) == Waiting(r, ch);
    case Watching(h, ch) => WatchKeepsWaiters(r, h, ch);
    case Destroy(h) => DestroyKeepsWaiters(r, h);
    case Started(ch, id) => StartKeepsWaiters(r, ch, id);
    case Ended(ch, id) => EndKeepsWaitersIff(r, ch, id);
  }

  lemma NotEnded(r: Registry, s: Step)
    requires !s.Ended?
    ensures !Strands(r, s)
  {
  }

  ghost predicate NoneStrands(r: Registry, steps: seq<Step>)
    decreases |steps|
  {
    steps != [] ==> !Strands(r, steps[0]) && NoneStrands(Apply(r, steps[0]), steps[1..])
  }

  ghost predicate AlwaysSubscribed(r: Registry, steps: seq<Step>)
    decreases |steps|
  {
    WaitersSubscribed(r) && (steps != [] ==> AlwaysSubscribed(Apply(r, steps[0]), steps[1..]))
  }

  lemma {:induction false} AlwaysSubscribedIff(r: Registry, steps: seq<Step>)
    requires WaitersSubscribed(r) && Consistent(r) && r.kind == Edge && CanRun(r, steps) && LoyalRun(r, steps)
    ensures AlwaysSubscribed(r, steps) <==> NoneStrands(r, steps)
    decreases |steps|
  {
    hide WaitersSubscribed, Consistent, Strands, Apply, Enabled, Loyal;
    if steps != [] {
      StepKeepsWaitersIff(r, steps[0]);
      StepConsistent(r, steps[0]);
      StepKind(r, steps[0]);
      if !Strands(r, steps[0]) {
        AlwaysSubscribedIff(Apply(r, steps[0]), steps[1..]);
      } else {
        Unsubscribed(Apply(r, steps[0]), steps[1..]);
      }
    }
  }

  lemma StepKind(r: Registry, s: Step)
    ensures Apply(r, s).kind == r.kind
  {
  }

  lemma Unsubscribed(r: Registry, steps: seq<Step>)
    requires !WaitersSubscribed(r)
    ensures !AlwaysSubscribed(r, steps)
  {
    hide WaitersSubscribed, Apply;
  }

  /** In every run of an Edge node in which no session goes on to a second channel: everybody
      who waits, at any time, waits for a subscribed channel, if and only if no stream that
      has viewers ends on a channel that is not subscribed. */
  lemma WaitersSubscribedIff(steps: seq<Step>)
    requires CanRun(Initial(Edge), steps) && LoyalRun(Initial(Edge), steps)
    ensures AlwaysSubscribed(Initial(Edge), steps) <==> NoneStrands(Initial(Edge), steps)
  {
    AlwaysSubscribedIff(Initial(Edge), steps);
  }

  /** It does fail: when the only viewer of a live stream leaves, another comes while the
      stream lasts, and then the stream ends, the last step strands that viewer. */
  lemma WaitingUnsubscribed(r: Registry, ch: Channel, h: Session, g: Session)
    requires Consistent(r) && r.kind == Edge && ch in r.streams && Live(r, ch) == {h}
    requires g in r.sessions && g != h && r.sessions[g] == None
    ensures
      var u := Watch(DestroySession(r, h), g, ch);
      var v := EndStream(u, ch, r.streams[ch].streamId);
      Strands(u, Ended(ch, r.streams[ch].streamId)) && Waiting(v, ch) == {g} && ch !in v.keys
  {
    assert Watches(r, h, ch);
    DestroyEffect(r, h, ch);
    DestroyKeepsIds(r, h);
    var d := DestroySession(r, h);
    assert d.kind == Edge && ch in Ids(d) && g in d.sessions;
    WatchEffect(d, g, ch);
    WatchKeepsIds(d, g, ch);
    var u := Watch(d, g, ch);
    assert Ids(u)[ch] == r.streams[ch].streamId;
    hide DestroySession, Watch;
    assert Live(u, ch) == {g};
  }

  // ---------------------------------------------------------------------------
  // When an Edge node subscribes and unsubscribes

  lemma WatchersAre(r: Registry, ch: Channel)
    requires Consistent(r)
    ensures Watchers(r, ch) == Live(r, ch) + Waiting(r, ch)
  {
    forall h ensures h in Watchers(r, ch) <==> h in Live(r, ch) + Waiting(r, ch) {
      assert Watches(r, h, ch) <==> h in Live(r, ch) || h in Waiting(r, ch);
    }
  }

  lemma WatcherIs(r: Registry, h: Session, ch: Channel)
    ensures h in Watchers(r, ch) <==> Watches(r, h, ch)
  {
  }

  /** A session that goes leaves nobody else watching, by either list, exactly when it was the
      only one. */
  lemma LastViewerIff(r: Registry, h: Session, ch: Channel)
    requires Consistent(r) && Watches(r, h, ch)
    ensures LastViewer(r, h, ch) <==> Watchers(r, ch) == {h}
  {
    WatchersAre(r, ch);
    assert h in Watchers(r, ch);
    if ch in r.streams {
      assert Watchers(r, ch) == r.streams[ch].viewers;
    } else {
      assert Watchers(r, ch) == Waiting(r, ch);
    }
  }

  /** When a session goes, an Edge node unsubscribes the channel and drops its key if and only
      if then nobody watches it, and otherwise sends nothing and keeps all keys. */
  lemma DestroyUnsubscribesIff(r: Registry, h: Session, ch: Channel)
    requires Consistent(r) && r.kind == Edge && Watches(r, h, ch)
    ensures
      var u := DestroySession(r, h);
      && Live(u, ch) + Waiting(u, ch) == Watchers(u, ch) == Watchers(r, ch) - {h}
      && (if Watchers(u, ch) == {} then u.keys == r.keys - {ch} && u.messages == r.messages + [Subscribe(false, ch)]
          else u.keys == r.keys && u.messages == r.messages)
  {
    hide LastViewer, DestroySession, Consistent, Watchers;
    var u := DestroySession(r, h);
    DestroyConsistent(r, h);
    WatchersAre(r, ch);
    WatchersAre(u, ch);
    DestroyEffect(r, h, ch);
    LastViewerIff(r, h, ch);
    assert h in Watchers(r, ch) by { WatcherIs(r, h, ch); }
    var (before, after) := (Watchers(r, ch), Watchers(u, ch));
    assert after == before - {h};
    assert before == {h} <==> after == {};
  }

  /** The messages an Edge node sends in a step, from who watches before and after it. */
  ghost function Told(r: Registry, s: Step): seq<Message> {
    match s
    case Watching(h, ch) =>
      if h in r.sessions && ch !in r.streams && Watchers(r, ch) == {} then [Subscribe(true, ch)] else []
    case Destroy(h) =>
      if h in r.sessions && r.sessions[h].Some? && Watchers(Apply(r, s), r.sessions[h].value) == {}
      then [Subscribe(false, r.sessions[h].value)] else []
    case _ => []
  }

  lemma StepTells(r: Registry, s: Step)
    requires Consistent(r) && r.kind == Edge
    ensures Apply(r, s).messages == r.messages + Told(r, s)
  {
    hide Consistent, Watchers, LastViewer, Forget, Vacate;
    match s
    case Watching(h, ch) => WatchersAre(r, ch); WaitingIsAll(r, ch);
    case Destroy(h) =>
      if h in r.sessions && r.sessions[h].Some? { DestroyUnsubscribesIff(r, h, r.sessions[h].value); }
    case Started(ch, id) => StartEffect(r, ch, id);
    case Ended(ch, id) => EndEffect(r, ch, id);
    case Create(_) =>
  }

  lemma WaitingIsAll(r: Registry, ch: Channel)
    requires Consistent(r)
    ensures ch !in r.streams ==> Live(r, ch) + Waiting(r, ch) == Waiting(r, ch)
  {
  }

  ghost function ToldAll(r: Registry, steps: seq<Step>): seq<Message>
    decreases |steps|
  {
    if steps == [] then [] else Told(r, steps[0]) + ToldAll(Apply(r, steps[0]), steps[1..])
  }

  /** Over every run of an Edge node in which no session goes on to a second channel: it
      subscribes when a first viewer comes to a channel without a stream, unsubscribes when
      the last one goes, and sends nothing else. */
  lemma {:induction false} EdgeTells(r: Registry, steps: seq<Step>)
    requires Consistent(r) && r.kind == Edge && CanRun(r, steps) && LoyalRun(r, steps)
    ensures Run(r, steps).messages == r.messages + ToldAll(r, steps)
    decreases |steps|
  {
    hide Consistent, Apply, Enabled, Loyal, Told;
    if steps != [] {
      StepTells(r, steps[0]);
      StepConsistent(r, steps[0]);
      StepKind(r, steps[0]);
      EdgeTells(Apply(r, steps[0]), steps[1..]);
    }
  }

  /** No step unsubscribes a channel that somebody still watches. */
  lemma WatchedStaysSubscribed(steps: seq<Step>, s: Step, ch: Channel)
    requires CanRun(Initial(Edge), steps) && LoyalRun(Initial(Edge), steps)
    requires Apply(Run(Initial(Edge), steps), s).messages ==
             Run(Initial(Edge), steps).messages + [Subscribe(false, ch)]
    ensures Watchers(Apply(Run(Initial(Edge), steps), s), ch) == {}
    ensures s.Destroy? && Watchers(Run(Initial(Edge), steps), ch) == {s.h}
  {
    hide Apply, Enabled, Loyal, CanRun, LoyalRun;
    var r := Run(Initial(Edge), steps);
    RunConsistent(Initial(Edge), steps);
    RunKind(Initial(Edge), steps);
    StepTells(r, s);
    hide Consistent, Run, NoLeak;
    var told := Apply(r, s).messages[|r.messages|..];
    assert told == Told(r, s) == [Subscribe(false, ch)];
    assert told[0] == Subscribe(false, ch);
    assert s.Destroy?;
    assert Apply(r, s) == DestroySession(r, s.h) by { ApplyDestroy(r, s); }
    assert Watches(r, s.h, ch);
    DestroyUnsubscribesIff(r, s.h, ch);
    assert s.h in Watchers(r, ch);
  }

  lemma ApplyDestroy(r: Registry, s: Step)
    requires s.Destroy?
    ensures Apply(r, s) == DestroySession(r, s.h)
  {
  }

  /** A Standalone node tells the orchestrator nothing. */
  lemma {:induction false} StandaloneIsSilent(r: Registry, steps: seq<Step>)
    requires r.kind == Standalone
    ensures Run(r, steps).messages == r.messages
    decreases |steps|
  {
    if steps != [] {
      StepKind(r, steps[0]);
      SilentStep(r, steps[0]);
      hide Apply;
      StandaloneIsSilent(Apply(r, steps[0]), steps[1..]);
    }
  }

  lemma SilentStep(r: Registry, s: Step)
    requires r.kind == Standalone
    ensures Apply(r, s).messages == r.messages
  {
  }
}
