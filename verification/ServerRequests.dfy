/** Over every run, every task and every stream of the server goes back to a request that came
    from outside, by the same connection and for the same channel. */
module ServerRequests {
  import opened Collections
  import opened ServerModel
  import opened ServerInvariants
  import opened ServerTasks
  import St = ServerStreams

  ghost predicate AskedForKey(arrived: set<Event>, c: Conn) {
    exists ch: Channel :: ControlRequestHmacKey(c, ch) in arrived
  }

  ghost predicate AskedForChannel(arrived: set<Event>, ch: Channel) {
    exists c: Conn :: ControlRequestMediaPort(c, ch) in arrived
  }

  ghost predicate AskedForPort(arrived: set<Event>, c: Conn) {
    exists ch: Channel :: ControlRequestMediaPort(c, ch) in arrived
  }

  /** The request behind an event. */
  ghost predicate EventAsked(arrived: set<Event>, e: Event) {
    match e
    case ControlHmacKeyFound(c) => AskedForKey(arrived, c)
    case TerminateControlConnection(c) => AskedForKey(arrived, c) || AskedForPort(arrived, c)
    case StreamIdAssigned(c, ch, _) => ControlRequestMediaPort(c, ch) in arrived
    case StreamStarted(_, ch, _, _) => AskedForChannel(arrived, ch)
    case StreamStartFailed(ch, _, _) => AskedForChannel(arrived, ch)
    case _ => e in arrived
  }

  /** The request behind a task. */
  ghost predicate TaskAsked(arrived: set<Event>, t: Task) {
    match t
    case FetchKey(c, ch) => ControlRequestHmacKey(c, ch) in arrived
    case ProvideKey(c) => AskedForKey(arrived, c)
    case CallStreamStarted(c, ch) => ControlRequestMediaPort(c, ch) in arrived
    case StartStream(c, ch, _, _) => ControlRequestMediaPort(c, ch) in arrived
    case CallStreamEnded(ch, _) => AskedForChannel(arrived, ch)
    case _ => true
  }

  ghost predicate Asked(s: Server, arrived: set<Event>) {
    && (forall e :: e in s.queue ==> EventAsked(arrived, e))
    && (forall t :: t in s.tasks ==> TaskAsked(arrived, t))
    && (forall st :: st in s.active ==> AskedForChannel(arrived, s.active[st].channel))
  }

  ghost function Arrived(steps: seq<Step>): set<Event> {
    if steps == [] then {} else (if steps[0].Arrive? then {steps[0].event} else {}) + Arrived(steps[1..])
  }

  ghost function Brought(step: Step): set<Event> {
    if step.Arrive? then {step.event} else {}
  }

  lemma AskedGrows(s: Server, a: set<Event>, b: set<Event>)
    requires Asked(s, a) && a <= b
    ensures Asked(s, b)
  {
  }

  lemma EventStep(s: Server, step: Step, a: set<Event>, e: Event)
    requires Enabled(s, step) && Asked(s, a) && Brought(step) <= a && e in Apply(s, step).queue
    ensures EventAsked(a, e)
  {
    QueuedIff(s, step, e);
    hide Apply, EventAsked;
    if e !in s.queue {
      BroughtIsAsked(s, step, a, e);
    }
  }

  lemma BroughtIsAsked(s: Server, step: Step, a: set<Event>, e: Event)
    requires Enabled(s, step) && Asked(s, a) && Brought(step) <= a && Brings(s, step, e)
    ensures EventAsked(a, e)
  {
    hide Apply;
    if step.Complete? { assert TaskAsked(a, s.tasks[step.task]); }
    if step.Dispatch? { assert EventAsked(a, s.queue[0]); }
  }

  lemma TaskStep(s: Server, step: Step, a: set<Event>, t: Task)
    requires Invariant(s) && Enabled(s, step) && Asked(s, a) && t in Apply(s, step).tasks
    ensures TaskAsked(a, t)
  {
    hide Invariant;
    StartedIff(s, step, t);
    hide Apply;
    if t !in s.tasks {
      assert Calls(s, step, t);
      if step.Dispatch? { assert EventAsked(a, s.queue[0]); }
    }
  }

  lemma RecordStep(s: Server, step: Step, a: set<Event>, st: StreamRef)
    requires Enabled(s, step) && Asked(s, a) && st in Apply(s, step).active
    ensures AskedForChannel(a, Apply(s, step).active[st].channel)
  {
    hide AskedForChannel, Handle, SearchEnds;
    if step.Dispatch? {
      St.HandleEntersRecord(Dequeue(s), s.queue[0], step.now, st);
      assert EventAsked(a, s.queue[0]);
    }
  }

  lemma StepAsked(s: Server, step: Step, a: set<Event>)
    requires Invariant(s) && Enabled(s, step) && Asked(s, a) && Brought(step) <= a
    ensures Asked(Apply(s, step), a)
  {
    hide Invariant, Apply, EventAsked, TaskAsked, AskedForChannel;
    var u := Apply(s, step);
    forall e | e in u.queue ensures EventAsked(a, e) { EventStep(s, step, a, e); }
    forall t | t in u.tasks ensures TaskAsked(a, t) { TaskStep(s, step, a, t); }
    forall st | st in u.active ensures AskedForChannel(a, u.active[st].channel) { RecordStep(s, step, a, st); }
  }

  lemma {:induction false} RunAsked(s: Server, steps: seq<Step>, a: set<Event>)
    requires Invariant(s) && CanRun(s, steps) && Asked(s, a)
    ensures Asked(Run(s, steps), a + Arrived(steps))
    decreases |steps|
  {
    hide Invariant, Apply, Enabled, Asked;
    if steps == [] {
      assert a + Arrived(steps) == a;
    } else {
      var b := a + Brought(steps[0]);
      AskedGrows(s, a, b);
      StepKeeps(s, steps[0]);
      StepAsked(s, steps[0], b);
      RunAsked(Apply(s, steps[0]), steps[1..], b);
      assert b + Arrived(steps[1..]) == a + Arrived(steps);
    }
  }

  /** In every run: a stream is started for a connection and a channel only if that connection
      asked for a media port for that channel; a key is fetched for the channel the connection
      named, and provided only to a connection that asked for one; and every stream in the
      table is of a channel somebody asked for. */
  lemma EverythingIsAsked(minPort: Port, maxPort: Port, steps: seq<Step>)
    requires CanRun(Initial(minPort, maxPort), steps)
    ensures Asked(Run(Initial(minPort, maxPort), steps), Arrived(steps))
  {
    hide Invariant, CanRun;
    InitialHolds(minPort, maxPort);
    RunAsked(Initial(minPort, maxPort), steps, {});
    assert {} + Arrived(steps) == Arrived(steps);
  }
}
