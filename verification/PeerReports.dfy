/**
 What the swarm is told about remote peers: every report that a handler yields is emitted once and in
 order, and the reports on a connection are those its finished streams and failed dials call for, unless
 it closes while failed dials are pending.
 */
module PeerReports {
  import opened Types
  import opened PeerBehaviour
  import opened PeerNetwork
  import H = PeerHandler

  /** A report with the connection it was made on, which the emitted event does not name. */
  datatype Report<I, P> = Report(conn: Conn, peer: Peer, event: H.Event<I, P>)

  /**
   A network with its trace: what the swarm was given, what was reported, and for each connection the
   streams it took and the dials that failed on it.
   */
  datatype Traced<I, P> = Traced(
    net: Net<I, P>,
    emitted: seq<ToSwarm<I, P>>,
    log: seq<Report<I, P>>,
    taken: map<Conn, seq<H.Completion<I, P>>>,
    dialed: map<Conn, seq<H.Cause>>)

  function Begin<I, P>(pushUpdates: bool): Traced<I, P> {
    Traced(Initial(pushUpdates), [], [], map[], map[])
  }

  /** The report that a poll of a handler makes, if it yields a notice. */
  function ReportOf<I, P>(c: Conn, p: Peer, out: Option<H.Output<I, P>>): seq<Report<I, P>> {
    match out
    case Some(Notify(event)) => [Report(c, p, event)]
    case _ => []
  }

  /** What the behaviour queues for that output of a handler. */
  function QueuedBy<I, P>(p: Peer, out: Option<H.Output<I, P>>): seq<ToSwarm<I, P>> {
    match out
    case Some(Notify(event)) => [Generate(p, event)]
    case _ => []
  }

  function On<T>(m: map<Conn, seq<T>>, c: Conn): seq<T> {
    if c in m then m[c] else []
  }

  function TracedNext<I, P>(merge: H.Merge<I, P>, t: Traced<I, P>, step: Step<I, P>): Traced<I, P>
    requires Enabled(t.net, step)
  {
    var t' := t.(net := Next(merge, t.net, step));
    match step
    case PollBehaviour(_) => t'.(emitted := t.emitted + [t.net.b.events[0]])
    case PollHandler(c, timer, finished) =>
      var out := H.Poll(merge, t.net.handlers[c], timer, finished).1;
      t'.(log := t.log + ReportOf(c, t.net.open[c], out),
          taken := if H.Consumes(t.net.handlers[c], timer, finished)
                   then t.taken[c := On(t.taken, c) + [finished.value]] else t.taken)
    case ConnectionChange(c, DialFailed(cause)) => t'.(dialed := t.dialed[c := On(t.dialed, c) + [cause]])
    case _ => t'
  }

  // ----- Reports in a queue and in a log -----

  function ReportIn<I, P>(e: ToSwarm<I, P>): seq<(Peer, H.Event<I, P>)> {
    match e
    case Generate(p, event) => [(p, event)]
    case _ => []
  }

  function ReportsIn<I, P>(events: seq<ToSwarm<I, P>>): seq<(Peer, H.Event<I, P>)> {
    if events == [] then [] else ReportsIn(events[..|events| - 1]) + ReportIn(events[|events| - 1])
  }

  function Untagged<I, P>(log: seq<Report<I, P>>): (r: seq<(Peer, H.Event<I, P>)>)
    ensures |r| == |log|
    ensures forall i :: 0 <= i < |r| ==> r[i] == (log[i].peer, log[i].event)
  {
    seq(|log|, i requires 0 <= i < |log| => (log[i].peer, log[i].event))
  }

  /** The reports yielded on one connection, in order. */
  function EventsOn<I, P>(log: seq<Report<I, P>>, c: Conn): seq<H.Event<I, P>> {
    if log == [] then []
    else
      var last := log[|log| - 1];
      EventsOn(log[..|log| - 1], c) + if last.conn == c then [last.event] else []
  }

  lemma {:induction false} ReportsAppend<I, P>(events: seq<ToSwarm<I, P>>, more: seq<ToSwarm<I, P>>)
    ensures ReportsIn(events + more) == ReportsIn(events) + ReportsIn(more)
    decreases |more|
  {
    if more == [] {
      assert events + more == events;
    } else {
      var n := |more| - 1;
      assert (events + more)[..|events + more| - 1] == events + more[..n];
      ReportsAppend(events, more[..n]);
    }
  }

  lemma {:induction false} NoReports<I, P>(events: seq<ToSwarm<I, P>>)
    requires forall i :: 0 <= i < |events| ==> events[i].NotifyHandler?
    ensures ReportsIn(events) == []
  {
    if events != [] {
      NoReports(events[..|events| - 1]);
    }
  }

  /** One more report adds to its own connection and to no other. */
  lemma ReportAdds<I, P>(log: seq<Report<I, P>>, c: Conn, p: Peer, out: Option<H.Output<I, P>>, c': Conn)
    ensures EventsOn(log + ReportOf(c, p, out), c') == EventsOn(log, c') + if c' == c then H.Yielded(out) else []
  {
    var more := log + ReportOf(c, p, out);
    if ReportOf(c, p, out) == [] {
      assert more == log;
    } else {
      assert more[..|more| - 1] == log;
    }
  }

  // ----- The invariant -----

  /** The history of one connection. */
  ghost function RunOf<I, P>(t: Traced<I, P>, c: Conn): H.Run<I, P>
    requires c in t.net.handlers
  {
    H.Run(t.net.handlers[c], On(t.taken, c), On(t.dialed, c), EventsOn(t.log, c))
  }

  /** Nothing reported is lost, repeated or reordered on its way to the swarm. */
  ghost predicate AllEmitted<I, P>(t: Traced<I, P>) {
    ReportsIn(t.emitted + t.net.b.events) == Untagged(t.log)
  }

  /** The handler of each open connection is up to date with its history. */
  ghost predicate HandlersUpToDate<I, P>(merge: H.Merge<I, P>, t: Traced<I, P>) {
    forall c :: c in t.net.handlers ==> H.UpToDate(merge, RunOf(t, c))
  }

  /** The reports on a connection are those its history calls for, but for some of the failed dials. */
  ghost predicate SettledOn<I, P>(merge: H.Merge<I, P>, t: Traced<I, P>, c: Conn) {
    exists causes :: H.Settled(merge, On(t.taken, c), On(t.dialed, c), EventsOn(t.log, c), causes)
  }

  ghost predicate TracedInv<I, P>(merge: H.Merge<I, P>, t: Traced<I, P>) {
    && t.taken.Keys <= t.net.used && t.dialed.Keys <= t.net.used && t.net.handlers.Keys <= t.net.used
    && AllEmitted(t) && HandlersUpToDate(merge, t) && forall c :: SettledOn(merge, t, c)
  }

  /** A step that queues only messages to handlers emits no report. */
  lemma QuietStep<I, P>(t: Traced<I, P>, net: Net<I, P>, more: seq<ToSwarm<I, P>>)
    requires AllEmitted(t) && net.b.events == t.net.b.events + more
    requires forall i :: 0 <= i < |more| ==> more[i].NotifyHandler?
    ensures AllEmitted(t.(net := net))
  {
    assert t.emitted + net.b.events == (t.emitted + t.net.b.events) + more;
    ReportsAppend(t.emitted + t.net.b.events, more);
    NoReports(more);
  }

  lemma AddressesAppend<I, P>(b: Behaviour<I, P>, e: AddressEvent, order: seq<(Peer, Conn)>, peers: seq<Peer>)
    returns (more: seq<ToSwarm<I, P>>)
    ensures AddressesSeen(b, e, order, peers).events == b.events + more
    ensures forall i :: 0 <= i < |more| ==> more[i].NotifyHandler?
  {
    more := if e.listenChanged || e.externalChanged then Notices(order, e.listen + e.external) else [];
    more := more + if e.listenChanged && b.pushUpdates then PushNotices(peers) else [];
  }

  /** The step is an input to the handler of a connection. */
  predicate IsInput<I, P>(step: Step<I, P>) {
    step.Deliver? || step.ConnectionChange? || step.PollHandler?
  }

  function InputBy<I, P>(n: Net<I, P>, step: Step<I, P>): H.Input<I, P>
    requires IsInput(step) && Enabled(n, step)
  {
    match step
    case Deliver(c) => H.Told(n.inbox[c][0])
    case ConnectionChange(_, change) => H.Connection(change)
    case PollHandler(_, timer, finished) => H.Polled(timer, finished)
  }

  lemma PollRuns<I, P>(
    merge: H.Merge<I, P>, t: Traced<I, P>, c: Conn, timer: bool, finished: Option<H.Completion<I, P>>)
    requires Enabled(t.net, PollHandler(c, timer, finished))
    ensures var t' := TracedNext(merge, t, PollHandler(c, timer, finished));
            c in t'.net.handlers && RunOf(t', c) == H.RunOne(merge, RunOf(t, c), H.Polled(timer, finished))
  {
    hide ReportOf, H.Yielded, H.OnCompletion, EventsOn;
    ReportAdds(t.log, c, t.net.open[c], H.Poll(merge, t.net.handlers[c], timer, finished).1, c);
  }

  /** It takes the history of that connection one step further. */
  lemma InputRuns<I, P>(merge: H.Merge<I, P>, t: Traced<I, P>, step: Step<I, P>)
    requires IsInput(step) && Enabled(t.net, step)
    ensures var t', c := TracedNext(merge, t, step), step.conn;
            c in t'.net.handlers && RunOf(t', c) == H.RunOne(merge, RunOf(t, c), InputBy(t.net, step))
  {
    hide H.OnBehaviourEvent, H.OnConnectionEvent, H.Poll, EventsOn;
    match step
    case PollHandler(c, timer, finished) => PollRuns(merge, t, c, timer, finished);
    case Deliver(c) =>
    case ConnectionChange(c, change) => assert On(t.dialed, c) + [] == On(t.dialed, c);
  }

  /** It leaves the other connections alone. */
  lemma InputFrame<I, P>(merge: H.Merge<I, P>, t: Traced<I, P>, step: Step<I, P>, c: Conn)
    requires IsInput(step) && Enabled(t.net, step) && c != step.conn
    ensures var t' := TracedNext(merge, t, step);
            && (c in t'.net.handlers <==> c in t.net.handlers)
            && (c in t.net.handlers ==> t'.net.handlers[c] == t.net.handlers[c])
            && On(t'.taken, c) == On(t.taken, c) && On(t'.dialed, c) == On(t.dialed, c)
            && EventsOn(t'.log, c) == EventsOn(t.log, c)
  {
    if step.PollHandler? {
      var at := step.conn;
      ReportAdds(t.log, at, t.net.open[at], H.Poll(merge, t.net.handlers[at], step.timer, step.finished).1, c);
    }
  }

  lemma InputKeepsHandlers<I, P>(merge: H.Merge<I, P>, t: Traced<I, P>, step: Step<I, P>)
    requires HandlersUpToDate(merge, t) && (forall c :: SettledOn(merge, t, c))
    requires IsInput(step) && Enabled(t.net, step)
    ensures var t' := TracedNext(merge, t, step);
            HandlersUpToDate(merge, t') && forall c :: SettledOn(merge, t', c)
  {
    hide H.RunOne, H.Settled, H.UpToDate, H.Pending, InputBy, TracedNext;
    var t', at := TracedNext(merge, t, step), step.conn;
    InputRuns(merge, t, step);
    H.StepKeepsUpToDate(merge, RunOf(t, at), InputBy(t.net, step));
    forall c ensures SettledOn(merge, t', c) {
      if c != at {
        InputFrame(merge, t, step, c);
        assert SettledOn(merge, t, c);
      }
    }
    forall c | c in t'.net.handlers ensures H.UpToDate(merge, RunOf(t', c)) {
      if c != at {
        InputFrame(merge, t, step, c);
      }
    }
  }

  /** What a step to a handler does to the rest. */
  lemma InputQueues<I, P>(merge: H.Merge<I, P>, t: Traced<I, P>, step: Step<I, P>)
    requires IsInput(step) && Enabled(t.net, step)
    ensures var t', c := TracedNext(merge, t, step), step.conn;
            var out := H.OutputOf(merge, t.net.handlers[c], InputBy(t.net, step));
            && t'.emitted == t.emitted && t'.net.used == t.net.used
            && t'.net.handlers.Keys <= t.net.handlers.Keys + {c}
            && t'.taken.Keys <= t.taken.Keys + {c} && t'.dialed.Keys <= t.dialed.Keys + {c}
            && t'.log == t.log + ReportOf(c, t.net.open[c], out)
            && t'.net.b.events == t.net.b.events + QueuedBy(t.net.open[c], out)
  {
    assert t.log + [] == t.log && t.net.b.events + [] == t.net.b.events;
  }

  lemma InputKeepsTraced<I, P>(merge: H.Merge<I, P>, t: Traced<I, P>, step: Step<I, P>)
    requires TracedInv(merge, t) && IsInput(step) && Enabled(t.net, step)
    ensures TracedInv(merge, TracedNext(merge, t, step))
  {
    hide H.OutputOf, H.Settled, H.UpToDate, InputBy, TracedNext, ReportOf, QueuedBy;
    var t', c := TracedNext(merge, t, step), step.conn;
    InputKeepsHandlers(merge, t, step);
    InputQueues(merge, t, step);
    InputEmits(t, c, t'.net, H.OutputOf(merge, t.net.handlers[c], InputBy(t.net, step)));
  }

  lemma InputEmits<I, P>(t: Traced<I, P>, c: Conn, net: Net<I, P>, out: Option<H.Output<I, P>>)
    requires AllEmitted(t) && c in t.net.open
    requires net.b.events == t.net.b.events + QueuedBy(t.net.open[c], out)
    ensures AllEmitted(t.(net := net, log := t.log + ReportOf(c, t.net.open[c], out)))
  {
    hide ReportsIn;
    var queued, more := t.emitted + t.net.b.events, QueuedBy(t.net.open[c], out);
    assert t.emitted + (t.net.b.events + more) == queued + more;
    ReportsAppend(queued, more);
    ReportsQueued(t.net.open[c], out);
    UntaggedAppend(t.log, c, t.net.open[c], out);
  }

  lemma ReportsQueued<I, P>(p: Peer, out: Option<H.Output<I, P>>)
    ensures ReportsIn(QueuedBy(p, out)) == match out case Some(Notify(event)) => [(p, event)] case _ => []
  {
    if out.Some? && out.value.Notify? {
      var e := Generate(p, out.value.event);
      assert ReportsIn([e]) == ReportsIn([]) + ReportIn(e);
    }
  }

  lemma UntaggedAppend<I, P>(log: seq<Report<I, P>>, c: Conn, p: Peer, out: Option<H.Output<I, P>>)
    ensures Untagged(log + ReportOf(c, p, out)) ==
            Untagged(log) + match out case Some(Notify(event)) => [(p, event)] case _ => []
  {
  }

  lemma PollBehaviourKeepsTraced<I, P>(merge: H.Merge<I, P>, t: Traced<I, P>, anyOf: Conn)
    requires TracedInv(merge, t) && |t.net.b.events| > 0
    ensures TracedInv(merge, TracedNext(merge, t, PollBehaviour(anyOf)))
  {
    var t' := TracedNext(merge, t, PollBehaviour(anyOf));
    PollChangesOnlyQueues(merge, t.net, anyOf);
    assert t'.emitted + t'.net.b.events == t.emitted + t.net.b.events;
    SameHistories(merge, t, t');
  }

  lemma QuietKeepsTraced<I, P>(merge: H.Merge<I, P>, t: Traced<I, P>, step: Step<I, P>)
    requires TracedInv(merge, t) && Enabled(t.net, step) && (step.Addresses? || step.PushTo?)
    ensures TracedInv(merge, TracedNext(merge, t, step))
  {
    var net := Next(merge, t.net, step);
    var more: seq<ToSwarm<I, P>> := [];
    match step {
      case Addresses(e, order, peers) => more := AddressesAppend(t.net.b, e, order, peers);
      case PushTo(targets) => more := PushNotices(ConnectedAmong(t.net.b.connected, targets));
    }
    QuietStep(t, net, more);
    SameHistories(merge, t, TracedNext(merge, t, step));
  }

  /** Where nothing is taken, dialed or reported and no handler is changed or made, nothing is owed. */
  lemma SameHistories<I, P>(merge: H.Merge<I, P>, t: Traced<I, P>, t': Traced<I, P>)
    requires HandlersUpToDate(merge, t) && forall c :: SettledOn(merge, t, c)
    requires t'.taken == t.taken && t'.dialed == t.dialed && t'.log == t.log
    requires forall c :: c in t'.net.handlers ==> c in t.net.handlers && t'.net.handlers[c] == t.net.handlers[c]
    ensures HandlersUpToDate(merge, t') && forall c :: SettledOn(merge, t', c)
  {
    hide H.Settled, H.UpToDate;
    forall c ensures SettledOn(merge, t', c) {
      assert SettledOn(merge, t, c);
    }
    forall c | c in t'.net.handlers ensures H.UpToDate(merge, RunOf(t', c)) {
      assert RunOf(t', c) == RunOf(t, c);
    }
  }

  lemma CloseKeepsTraced<I, P>(merge: H.Merge<I, P>, t: Traced<I, P>, step: Step<I, P>)
    requires TracedInv(merge, t) && Enabled(t.net, step) && step.Close?
    ensures TracedInv(merge, TracedNext(merge, t, step))
  {
    QuietStep(t, Next(merge, t.net, step), []);
    SameHistories(merge, t, TracedNext(merge, t, step));
  }

  /** Nothing has been reported on a connection that is new. */
  lemma NothingReported<I, P>(merge: H.Merge<I, P>, t: Traced<I, P>, c: Conn, addresses: set<Addr>)
    requires TracedInv(merge, t) && c !in t.net.used
    ensures H.UpToDate(merge, H.Run(H.New(addresses), On(t.taken, c), On(t.dialed, c), EventsOn(t.log, c)))
  {
    assert SettledOn(merge, t, c);
  }

  lemma EstablishKeepsTraced<I, P>(merge: H.Merge<I, P>, t: Traced<I, P>, p: Peer, c: Conn, addr: Addr)
    requires TracedInv(merge, t) && c !in t.net.used
    ensures TracedInv(merge, TracedNext(merge, t, Establish(p, c, addr)))
  {
    hide H.Settled, H.UpToDate;
    var t' := TracedNext(merge, t, Establish(p, c, addr));
    QuietStep(t, t'.net, []);
    NothingReported(merge, t, c, AllAddresses(t.net.b));
    forall c' ensures SettledOn(merge, t', c') {
      assert SettledOn(merge, t, c');
    }
    forall c' | c' in t'.net.handlers ensures H.UpToDate(merge, RunOf(t', c')) {
      assert c' != c ==> RunOf(t', c') == RunOf(t, c');
    }
  }

  lemma StepKeepsTraced<I, P>(merge: H.Merge<I, P>, t: Traced<I, P>, step: Step<I, P>)
    requires TracedInv(merge, t) && Enabled(t.net, step)
    ensures TracedInv(merge, TracedNext(merge, t, step))
  {
    hide TracedInv, TracedNext;
    match step
    case PollBehaviour(anyOf) => PollBehaviourKeepsTraced(merge, t, anyOf);
    case Establish(p, c, addr) => EstablishKeepsTraced(merge, t, p, c, addr);
    case Close(_, _) => CloseKeepsTraced(merge, t, step);
    case Addresses(_, _, _) => QuietKeepsTraced(merge, t, step);
    case PushTo(_) => QuietKeepsTraced(merge, t, step);
    case _ => InputKeepsTraced(merge, t, step);
  }

  // ----- Runs -----

  ghost function TracedAfter<I, P>(merge: H.Merge<I, P>, t: Traced<I, P>, steps: seq<Step<I, P>>): (r: Traced<I, P>)
    requires EnabledAll(merge, t.net, steps)
    ensures r.net == After(merge, t.net, steps)
    decreases |steps|
  {
    if steps == [] then t else TracedAfter(merge, TracedNext(merge, t, steps[0]), steps[1..])
  }

  lemma {:induction false} RunKeepsTraced<I, P>(merge: H.Merge<I, P>, t: Traced<I, P>, steps: seq<Step<I, P>>)
    requires TracedInv(merge, t) && EnabledAll(merge, t.net, steps)
    ensures TracedInv(merge, TracedAfter(merge, t, steps))
    decreases |steps|
  {
    if steps != [] {
      StepKeepsTraced(merge, t, steps[0]);
      RunKeepsTraced(merge, TracedNext(merge, t, steps[0]), steps[1..]);
    }
  }

  lemma BeginTraced<I, P>(merge: H.Merge<I, P>, pushUpdates: bool)
    ensures TracedInv(merge, Begin<I, P>(pushUpdates))
  {
    var t := Begin<I, P>(pushUpdates);
    forall c ensures SettledOn(merge, t, c) {
      assert H.Settled(merge, On(t.taken, c), On(t.dialed, c), EventsOn(t.log, c), []);
    }
  }

  /**
   In every run from the start: the reports given to the swarm, followed by those still queued, are
   exactly the reports yielded, in that order; and on each connection, open or closed, they are exactly
   those that its finished streams and failed dials call for, all but some failed dials, which are the
   ones still pending in the handler or, if the connection has closed, lost.
   */
  lemma EveryReportArrivesOnce<I, P>(merge: H.Merge<I, P>, pushUpdates: bool, steps: seq<Step<I, P>>)
    requires EnabledAll(merge, Initial<I, P>(pushUpdates), steps)
    ensures var t := TracedAfter(merge, Begin<I, P>(pushUpdates), steps);
            && ReportsIn(t.emitted) + ReportsIn(t.net.b.events) == Untagged(t.log)
            && (forall c :: SettledOn(merge, t, c))
            && (forall c :: c in t.net.handlers ==>
                  && H.Settled(merge, On(t.taken, c), On(t.dialed, c), EventsOn(t.log, c),
                               H.Pending(t.net.handlers[c].events))
                  && t.net.handlers[c].remoteInfo == H.Latest(merge, On(t.taken, c)))
  {
    BeginTraced<I, P>(merge, pushUpdates);
    RunKeepsTraced(merge, Begin<I, P>(pushUpdates), steps);
    var t := TracedAfter(merge, Begin<I, P>(pushUpdates), steps);
    ReportsAppend(t.emitted, t.net.b.events);
    forall c | c in t.net.handlers ensures H.UpToDate(merge, RunOf(t, c)) {
    }
  }
}
