/**
 The behaviour, the handlers of its open connections, and the messages between them, as one step
 system.  Messages to a connection arrive in the order they were queued, and a connection is set
 up in one step.
 */
module PeerNetwork {
  import opened Types
  import opened PeerBehaviour
  import H = PeerHandler

  datatype Net<I, P> = Net(
    b: Behaviour<I, P>,
    open: map<Conn, Peer>,
    used: set<Conn>,
    handlers: map<Conn, H.State<I, P>>,
    inbox: map<Conn, seq<H.InEvent>>)

  datatype Step<I, P> =
    | Addresses(event: AddressEvent, order: seq<(Peer, Conn)>, peers: seq<Peer>)
    | Establish(peer: Peer, conn: Conn, addr: Addr)
    | Close(conn: Conn, remaining: nat)
    | PushTo(targets: seq<Peer>)
    | PollBehaviour(anyOf: Conn)
    | Deliver(conn: Conn)
    | ConnectionChange(conn: Conn, change: H.ConnectionEvent)
    | PollHandler(conn: Conn, timer: bool, finished: Option<H.Completion<I, P>>)

  function Initial<I, P>(pushUpdates: bool): Net<I, P> {
    Net(Start(pushUpdates), map[], {}, map[], map[])
  }

  /** Address changes are reported, connection ids are never reused, and remaining counts are accurate. */
  ghost predicate Enabled<I, P>(n: Net<I, P>, step: Step<I, P>) {
    match step
    case Addresses(e, order, _) => Reported(n.b, e) && ListsLinks(order, n.b.connected)
    case Establish(_, c, _) => c !in n.used
    case Close(c, remaining) => c in n.open && remaining == |Others(n.open, n.open[c], c)|
    case PushTo(_) => true
    case PollBehaviour(_) => |n.b.events| > 0
    case Deliver(c) => c in n.open && c in n.handlers && c in n.inbox && |n.inbox[c]| > 0
    case ConnectionChange(c, _) => c in n.open && c in n.handlers
    case PollHandler(c, _, _) => c in n.open && c in n.handlers
  }

  /** Hands a message to an open connection; messages for closed ones are dropped. */
  function Post<I, P>(n: Net<I, P>, c: Conn, m: H.InEvent): Net<I, P> {
    if c in n.open && c in n.inbox then n.(inbox := n.inbox[c := n.inbox[c] + [m]]) else n
  }

  function Next<I, P>(merge: H.Merge<I, P>, n: Net<I, P>, step: Step<I, P>): Net<I, P>
    requires Enabled(n, step)
  {
    match step
    case Addresses(e, order, peers) => n.(b := AddressesSeen(n.b, e, order, peers))
    case Establish(p, c, addr) =>
      Net(Established(n.b, p, c, addr), n.open[c := p], n.used + {c},
          n.handlers[c := H.New(AllAddresses(n.b))], n.inbox[c := []])
    case Close(c, remaining) =>
      Net(Closed(n.b, n.open[c], c, remaining), n.open - {c}, n.used, n.handlers - {c}, n.inbox - {c})
    case PushTo(targets) => n.(b := Pushed(n.b, targets))
    case PollBehaviour(anyOf) =>
      var popped := n.(b := n.b.(events := n.b.events[1..]));
      (match n.b.events[0]
       case NotifyHandler(_, One(c), m) => Post(popped, c, m)
       case NotifyHandler(_, Any, m) => Post(popped, anyOf, m)
       case Generate(_, _) => popped)
    case Deliver(c) =>
      n.(handlers := n.handlers[c := H.OnBehaviourEvent(n.handlers[c], n.inbox[c][0])],
         inbox := n.inbox[c := n.inbox[c][1..]])
    case ConnectionChange(c, change) => n.(handlers := n.handlers[c := H.OnConnectionEvent(n.handlers[c], change)])
    case PollHandler(c, timer, finished) =>
      var (h, out) := H.Poll(merge, n.handlers[c], timer, finished);
      var polled := n.(handlers := n.handlers[c := h]);
      (match out
       case Some(Notify(report)) => polled.(b := n.b.(events := n.b.events + [Generate(n.open[c], report)]))
       case _ => polled)
  }

  // ----- What a queue of messages comes to -----

  function NoticeFor<I, P>(e: ToSwarm<I, P>, c: Conn): seq<H.InEvent> {
    match e
    case NotifyHandler(_, One(c'), m) => if c' == c then [m] else []
    case _ => []
  }

  function NoticesFor<I, P>(events: seq<ToSwarm<I, P>>, c: Conn): seq<H.InEvent> {
    if events == [] then [] else NoticeFor(events[0], c) + NoticesFor(events[1..], c)
  }

  /** The addresses a handler ends up with after the given messages. */
  function Final(addresses: set<Addr>, messages: seq<H.InEvent>): set<Addr>
    decreases |messages|
  {
    if messages == [] then addresses
    else match messages[0]
      case AddressesChanged(a) => Final(a, messages[1..])
      case PushNow => Final(addresses, messages[1..])
  }

  lemma {:induction false} NoticesForAppend<I, P>(events: seq<ToSwarm<I, P>>, more: seq<ToSwarm<I, P>>, c: Conn)
    ensures NoticesFor(events + more, c) == NoticesFor(events, c) + NoticesFor(more, c)
  {
    if events == [] {
      assert events + more == more;
    } else {
      var all, head := events + more, NoticeFor(events[0], c);
      assert all[0] == events[0] && all[1..] == events[1..] + more;
      NoticesForAppend(events[1..], more, c);
      assert head + (NoticesFor(events[1..], c) + NoticesFor(more, c)) ==
             (head + NoticesFor(events[1..], c)) + NoticesFor(more, c);
    }
  }

  lemma {:induction false} FinalAppend(addresses: set<Addr>, messages: seq<H.InEvent>, more: seq<H.InEvent>)
    ensures Final(addresses, messages + more) == Final(Final(addresses, messages), more)
    decreases |messages|
  {
    if messages == [] {
      assert messages + more == more;
    } else {
      assert (messages + more)[1..] == messages[1..] + more;
      FinalAppend(if messages[0].PushNow? then addresses else messages[0].addresses, messages[1..], more);
    }
  }

  /** Events for nobody in particular, or for other connections, leave a connection's notices alone. */
  ghost predicate NotFor<I, P>(events: seq<ToSwarm<I, P>>, c: Conn) {
    forall i :: 0 <= i < |events| ==> !(events[i].NotifyHandler? && events[i].target == One(c))
  }

  lemma {:induction false} NoNotices<I, P>(events: seq<ToSwarm<I, P>>, c: Conn)
    requires NotFor(events, c)
    ensures NoticesFor(events, c) == []
  {
    if events != [] {
      NoNotices(events[1..], c);
    }
  }

  /** Notices to all connections tell each of them the addresses, and nothing else. */
  lemma {:induction false} NoticesTell<I, P>(order: seq<(Peer, Conn)>, addresses: set<Addr>, before: set<Addr>, c: Conn)
    ensures Final(before, NoticesFor(Notices<I, P>(order, addresses), c)) ==
            if exists i :: 0 <= i < |order| && order[i].1 == c then addresses else before
  {
    var notices := Notices<I, P>(order, addresses);
    if order != [] {
      var rest := order[1..];
      assert notices[1..] == Notices<I, P>(rest, addresses);
      var first := if order[0].1 == c then addresses else before;
      NoticesTell<I, P>(rest, addresses, first, c);
      var head := if order[0].1 == c then [H.AddressesChanged(addresses)] else [];
      assert NoticesFor(notices, c) == head + NoticesFor(notices[1..], c);
      FinalAppend(before, head, NoticesFor(notices[1..], c));
      assert (exists i :: 0 <= i < |order| && order[i].1 == c) <==>
             order[0].1 == c || (exists i :: 0 <= i < |rest| && rest[i].1 == c) by {
        if i :| 0 <= i < |order| && order[i].1 == c {
          assert i > 0 ==> rest[i - 1].1 == c;
        }
        if i :| 0 <= i < |rest| && rest[i].1 == c {
          assert order[i + 1].1 == c;
        }
      }
    }
  }

  // ----- The invariant -----

  /** What the handler of `c` will know once all its queued messages have arrived. */
  function Knows<I, P>(n: Net<I, P>, c: Conn): set<Addr>
    requires c in n.handlers && c in n.inbox
  {
    Final(Final(n.handlers[c].addresses, n.inbox[c]), NoticesFor(n.b.events, c))
  }

  ghost predicate InStep<I, P>(n: Net<I, P>) {
    forall c :: c in n.open ==> c in n.handlers && c in n.inbox && Knows(n, c) == AllAddresses(n.b)
  }

  /** Queued notices are for connections that exist or existed; undirected ones are pushes. */
  ghost predicate QueueOk<I, P>(events: seq<ToSwarm<I, P>>, used: set<Conn>) {
    forall i :: 0 <= i < |events| && events[i].NotifyHandler? ==>
      match events[i].target
      case One(c) => c in used
      case Any => events[i].event == H.PushNow
  }

  ghost predicate Inv<I, P>(n: Net<I, P>) {
    && ConnectedIsOpen(n.b.connected, n.open)
    && n.open.Keys <= n.used && n.open.Keys == n.handlers.Keys && n.open.Keys == n.inbox.Keys
    && QueueOk(n.b.events, n.used)
    && InStep(n)
  }

  // ----- One lemma per step -----

  /** Queueing events that are not for a connection changes nothing that it will know. */
  lemma QueueOther<I, P>(n: Net<I, P>, more: seq<ToSwarm<I, P>>)
    requires Inv(n) && QueueOk(more, n.used) && forall c :: NotFor(more, c)
    ensures Inv(n.(b := n.b.(events := n.b.events + more)))
  {
    var n' := n.(b := n.b.(events := n.b.events + more));
    forall c | c in n.open ensures Knows(n', c) == AllAddresses(n'.b) {
      NoticesForAppend(n.b.events, more, c);
      NoNotices(more, c);
      assert NoticesFor(n.b.events, c) + [] == NoticesFor(n.b.events, c);
    }
  }

  lemma PushKeepsInv<I, P>(n: Net<I, P>, targets: seq<Peer>)
    requires Inv(n)
    ensures Inv(n.(b := Pushed(n.b, targets)))
  {
    QueueOther(n, PushNotices(ConnectedAmong(n.b.connected, targets)));
  }

  /** Once every connection has been sent the new addresses, all will know them. */
  lemma ToldKeepsInv<I, P>(n: Net<I, P>, listen: set<Addr>, external: set<Addr>, order: seq<(Peer, Conn)>)
    requires Inv(n) && ListsLinks(order, n.b.connected)
    ensures Inv(n.(b := n.b.(listen := listen, external := external,
                             events := n.b.events + Notices(order, listen + external))))
  {
    var notices := Notices<I, P>(order, listen + external);
    var n' := n.(b := n.b.(listen := listen, external := external, events := n.b.events + notices));
    forall c | c in n.open ensures Knows(n', c) == listen + external {
      NoticesForAppend(n.b.events, notices, c);
      var before := Final(n.handlers[c].addresses, n.inbox[c]);
      FinalAppend(before, NoticesFor(n.b.events, c), NoticesFor(notices, c));
      NoticesTell<I, P>(order, listen + external, Final(before, NoticesFor(n.b.events, c)), c);
      assert Linked(n.b.connected, n.open[c], c);
      var i :| 0 <= i < |order| && order[i] == (n.open[c], c);
      assert order[i].1 == c;
    }
    forall i | 0 <= i < |order| ensures order[i].1 in n.used {
      assert (order[i].0, order[i].1) in order;
      assert Linked(n.b.connected, order[i].0, order[i].1);
    }
  }

  lemma AddressesKeepInv<I, P>(n: Net<I, P>, e: AddressEvent, order: seq<(Peer, Conn)>, peers: seq<Peer>)
    requires Inv(n) && Reported(n.b, e) && ListsLinks(order, n.b.connected)
    ensures Inv(n.(b := AddressesSeen(n.b, e, order, peers)))
  {
    var told := n;
    if e.listenChanged || e.externalChanged {
      ToldKeepsInv(n, e.listen, e.external, order);
      told := n.(b := n.b.(listen := e.listen, external := e.external,
                           events := n.b.events + Notices(order, e.listen + e.external)));
    }
    if e.listenChanged && n.b.pushUpdates {
      QueueOther(told, PushNotices(peers));
    }
  }

  lemma EstablishKeepsInv<I, P>(merge: H.Merge<I, P>, n: Net<I, P>, p: Peer, c: Conn, addr: Addr)
    requires Inv(n) && c !in n.used
    ensures Inv(Next(merge, n, Establish(p, c, addr)))
  {
    var n' := Next(merge, n, Establish(p, c, addr));
    EstablishKeepsConnected(n.b, n.open, p, c, addr);
    forall c' | c' in n'.open ensures Knows(n', c') == AllAddresses(n'.b) {
      if c' == c {
        NoNotices(n.b.events, c);
      } else {
        assert Knows(n', c') == Knows(n, c');
      }
    }
  }

  lemma CloseKeepsInv<I, P>(merge: H.Merge<I, P>, n: Net<I, P>, c: Conn, remaining: nat)
    requires Inv(n) && Enabled(n, Close(c, remaining))
    ensures Inv(Next(merge, n, Close(c, remaining)))
  {
    var n' := Next(merge, n, Close(c, remaining));
    CloseKeepsConnectedIff(n.b, n.open, c, remaining);
    forall c' | c' in n'.open ensures Knows(n', c') == AllAddresses(n'.b) {
      assert Knows(n', c') == Knows(n, c');
    }
  }

  /** A message moved from the queue to the inbox still comes before the rest of the queue. */
  lemma PollKeepsKnown<I, P>(merge: H.Merge<I, P>, n: Net<I, P>, anyOf: Conn, c: Conn)
    requires Inv(n) && |n.b.events| > 0 && c in n.open
    ensures Knows(Next(merge, n, PollBehaviour(anyOf)), c) == Knows(n, c)
  {
    var n' := Next(merge, n, PollBehaviour(anyOf));
    var e := n.b.events[0];
    var known := Final(n.handlers[c].addresses, n.inbox[c]);
    if e.NotifyHandler? {
      FinalAppend(n.handlers[c].addresses, n.inbox[c], [e.event]);
      if e.target == One(c) {
        assert NoticesFor(n.b.events, c) == [e.event] + NoticesFor(n.b.events[1..], c);
        FinalAppend(known, [e.event], NoticesFor(n.b.events[1..], c));
      } else {
        assert NoticesFor(n.b.events, c) == NoticesFor(n.b.events[1..], c);
        assert e.target.Any? ==> Final(known, [e.event]) == known;
      }
    } else {
      assert NoticesFor(n.b.events, c) == NoticesFor(n.b.events[1..], c);
    }
  }

  lemma PollChangesOnlyQueues<I, P>(merge: H.Merge<I, P>, n: Net<I, P>, anyOf: Conn)
    requires |n.b.events| > 0
    ensures var n' := Next(merge, n, PollBehaviour(anyOf));
            && n'.b == n.b.(events := n.b.events[1..])
            && n'.open == n.open && n'.used == n.used && n'.handlers == n.handlers
            && n'.inbox.Keys == n.inbox.Keys
  {
  }

  lemma QueueTail<I, P>(events: seq<ToSwarm<I, P>>, used: set<Conn>)
    requires |events| > 0 && QueueOk(events, used)
    ensures QueueOk(events[1..], used)
  {
  }

  lemma PollKeepsInv<I, P>(merge: H.Merge<I, P>, n: Net<I, P>, anyOf: Conn)
    requires Inv(n) && |n.b.events| > 0
    ensures Inv(Next(merge, n, PollBehaviour(anyOf)))
  {
    PollChangesOnlyQueues(merge, n, anyOf);
    QueueTail(n.b.events, n.used);
    var n' := Next(merge, n, PollBehaviour(anyOf));
    assert InStep(n') by {
      forall c | c in n'.open ensures Knows(n', c) == AllAddresses(n'.b) {
        PollKeepsKnown(merge, n, anyOf, c);
      }
    }
  }

  lemma DeliverKeepsInv<I, P>(merge: H.Merge<I, P>, n: Net<I, P>, c: Conn)
    requires Inv(n) && Enabled(n, Deliver(c))
    ensures Inv(Next(merge, n, Deliver(c)))
  {
  }

  /** A change inside a handler that leaves its addresses alone changes nothing that is known. */
  lemma HandlerChangeKeepsInv<I, P>(n: Net<I, P>, c: Conn, h: H.State<I, P>)
    requires Inv(n) && c in n.open && h.addresses == n.handlers[c].addresses
    ensures Inv(n.(handlers := n.handlers[c := h]))
  {
    var n' := n.(handlers := n.handlers[c := h]);
    forall c' | c' in n'.open ensures Knows(n', c') == AllAddresses(n'.b) {
      assert Knows(n', c') == Knows(n, c');
    }
  }

  lemma PollHandlerKeepsInv<I, P>(
    merge: H.Merge<I, P>, n: Net<I, P>, c: Conn, timer: bool, finished: Option<H.Completion<I, P>>)
    requires Inv(n) && Enabled(n, PollHandler(c, timer, finished))
    ensures Inv(Next(merge, n, PollHandler(c, timer, finished)))
  {
    var (h, out) := H.Poll(merge, n.handlers[c], timer, finished);
    var polled := n.(handlers := n.handlers[c := h]);
    HandlerChangeKeepsInv(n, c, h);
    if out.Some? && out.value.Notify? {
      var more := [Generate(n.open[c], out.value.event)];
      QueueOther(polled, more);
      assert Next(merge, n, PollHandler(c, timer, finished)) == polled.(b := n.b.(events := n.b.events + more));
    } else {
      assert Next(merge, n, PollHandler(c, timer, finished)) == polled;
    }
  }

  lemma StepKeepsInv<I, P>(merge: H.Merge<I, P>, n: Net<I, P>, step: Step<I, P>)
    requires Inv(n) && Enabled(n, step)
    ensures Inv(Next(merge, n, step))
  {
    match step
    case Addresses(e, order, peers) => AddressesKeepInv(n, e, order, peers);
    case Establish(p, c, addr) => EstablishKeepsInv(merge, n, p, c, addr);
    case Close(c, remaining) => CloseKeepsInv(merge, n, c, remaining);
    case PushTo(targets) => PushKeepsInv(n, targets);
    case PollBehaviour(anyOf) => PollKeepsInv(merge, n, anyOf);
    case Deliver(c) => DeliverKeepsInv(merge, n, c);
    case ConnectionChange(c, change) => HandlerChangeKeepsInv(n, c, H.OnConnectionEvent(n.handlers[c], change));
    case PollHandler(c, timer, finished) => PollHandlerKeepsInv(merge, n, c, timer, finished);
  }

  // ----- Runs -----

  ghost predicate EnabledAll<I, P>(merge: H.Merge<I, P>, n: Net<I, P>, steps: seq<Step<I, P>>)
    decreases |steps|
  {
    steps != [] ==> Enabled(n, steps[0]) && EnabledAll(merge, Next(merge, n, steps[0]), steps[1..])
  }

  ghost function After<I, P>(merge: H.Merge<I, P>, n: Net<I, P>, steps: seq<Step<I, P>>): Net<I, P>
    requires EnabledAll(merge, n, steps)
    decreases |steps|
  {
    if steps == [] then n else After(merge, Next(merge, n, steps[0]), steps[1..])
  }

  lemma {:induction false} RunKeepsInv<I, P>(merge: H.Merge<I, P>, n: Net<I, P>, steps: seq<Step<I, P>>)
    requires Inv(n) && EnabledAll(merge, n, steps)
    ensures Inv(After(merge, n, steps))
    decreases |steps|
  {
    if steps != [] {
      StepKeepsInv(merge, n, steps[0]);
      RunKeepsInv(merge, Next(merge, n, steps[0]), steps[1..]);
    }
  }

  /**
   In every run from the start: `connected` is exactly the open connections, with no empty peer; and
   every open connection's handler, once its queued messages have arrived in order, knows exactly the
   current addresses, so that with nothing queued it knows them already.
   */
  lemma EveryRunStaysInStep<I, P>(merge: H.Merge<I, P>, pushUpdates: bool, steps: seq<Step<I, P>>)
    requires EnabledAll(merge, Initial<I, P>(pushUpdates), steps)
    ensures var n := After(merge, Initial<I, P>(pushUpdates), steps);
            && ConnectedIsOpen(n.b.connected, n.open)
            && InStep(n)
            && (forall c :: c in n.open && n.inbox[c] == [] && NotFor(n.b.events, c) ==>
                  n.handlers[c].addresses == AllAddresses(n.b))
  {
    RunKeepsInv(merge, Initial<I, P>(pushUpdates), steps);
    var n := After(merge, Initial<I, P>(pushUpdates), steps);
    forall c | c in n.open && n.inbox[c] == [] && NotFor(n.b.events, c)
      ensures n.handlers[c].addresses == AllAddresses(n.b)
    {
      NoNotices(n.b.events, c);
      assert Knows(n, c) == AllAddresses(n.b);
    }
  }

  /** A connection set up with a handler that was made when the addresses were `captured`. */
  function LateSetup<I, P>(n: Net<I, P>, p: Peer, c: Conn, addr: Addr, captured: set<Addr>): Net<I, P> {
    Net(Established(n.b, p, c, addr), n.open[c := p], n.used + {c}, n.handlers[c := H.New(captured)], n.inbox[c := []])
  }

  /** Why setup must be one step: a handler made earlier is in step exactly if the addresses are still the same. */
  lemma LateSetupInStepIff<I, P>(merge: H.Merge<I, P>, n: Net<I, P>, p: Peer, c: Conn, addr: Addr, captured: set<Addr>)
    requires Inv(n) && c !in n.used
    ensures InStep(LateSetup(n, p, c, addr, captured)) <==> captured == AllAddresses(n.b)
  {
    var late := LateSetup(n, p, c, addr, captured);
    if captured == AllAddresses(n.b) {
      EstablishKeepsInv(merge, n, p, c, addr);
      assert late == Next(merge, n, Establish(p, c, addr));
    } else {
      NoNotices(n.b.events, c);
      assert c in late.open && Knows(late, c) == captured;
    }
  }
}
