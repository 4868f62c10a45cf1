/**
 The per-connection handler of the peer-info protocol: what it remembers of the remote, and the
 addresses it was last told.  How a push is merged into an info is the application's choice.
 */
module PeerHandler {
  import opened Types

  type Addr = nat
  type Cause = nat

  datatype InEvent = AddressesChanged(addresses: set<Addr>) | PushNow

  /** A finished stream. */
  datatype Completion<I, P> =
    | SentIdentify
    | ReceivedIdentify(info: I)
    | SentIdentifyPush(sent: P)
    | ReceivedIdentifyPush(push: P)
    | Failed(cause: Cause)
    | TimedOut

  datatype Event<I, P> =
    | Identified(info: I)
    | Identification
    | IdentificationPushed(push: P)
    | IdentificationFailed(cause: Cause)
    | IdentificationTimedOut

  /** What a poll yields: a request for a stream, or a notice for the behaviour. */
  datatype Output<I, P> = OpenIdentify | OpenPush | Notify(event: Event<I, P>)

  datatype State<I, P> = State(
    addresses: set<Addr>,
    remoteInfo: Option<I>,
    events: seq<Output<I, P>>,
    exchanged: bool)

  type Merge<!I, !P> = (I, P) -> I

  function New<I, P>(addresses: set<Addr>): State<I, P> {
    State(addresses, None, [], false)
  }

  function OnBehaviourEvent<I, P>(h: State<I, P>, e: InEvent): State<I, P> {
    match e
    case AddressesChanged(addresses) => h.(addresses := addresses)
    case PushNow => h.(events := h.events + [OpenPush])
  }

  datatype ConnectionEvent =
    | InboundIdentify(accepted: bool)
    | DialFailed(cause: Cause)
    | ProtocolsChanged(changed: bool)

  /** Events of the connection itself; protocol changes are pushed once an identify has been exchanged. */
  function OnConnectionEvent<I, P>(h: State<I, P>, e: ConnectionEvent): State<I, P> {
    match e
    case InboundIdentify(accepted) => if accepted then h.(exchanged := true) else h
    case DialFailed(cause) => h.(events := h.events + [Notify(IdentificationFailed(cause))])
    case ProtocolsChanged(changed) => if changed && h.exchanged then h.(events := h.events + [OpenPush]) else h
  }

  /** What a finished stream does: the remote info afterwards, and the notice if there is one. */
  function OnCompletion<I, P>(merge: Merge<I, P>, remote: Option<I>, c: Completion<I, P>)
    : (Option<I>, Option<Event<I, P>>)
  {
    match c
    case SentIdentify => (remote, Some(Identification))
    case ReceivedIdentify(info) => (Some(info), Some(Identified(info)))
    case SentIdentifyPush(push) => (remote, Some(IdentificationPushed(push)))
    case ReceivedIdentifyPush(push) =>
      (match remote
       case None => (None, None)
       case Some(info) => (Some(merge(info, push)), Some(Identified(merge(info, push)))))
    case Failed(cause) => (remote, Some(IdentificationFailed(cause)))
    case TimedOut => (remote, Some(IdentificationTimedOut))
  }

  /** One poll: a pending event, latest first; else the timer; else a finished stream if there is one. */
  function Poll<I, P>(merge: Merge<I, P>, h: State<I, P>, timer: bool, finished: Option<Completion<I, P>>)
    : (State<I, P>, Option<Output<I, P>>)
  {
    if h.events != [] then (h.(events := h.events[..|h.events| - 1]), Some(h.events[|h.events| - 1]))
    else if timer then (h, Some(OpenIdentify))
    else match finished
      case None => (h, None)
      case Some(c) =>
        var (remote, notice) := OnCompletion(merge, h.remoteInfo, c);
        (h.(remoteInfo := remote), match notice case None => None case Some(e) => Some(Notify(e)))
  }

  predicate Consumes<I, P>(h: State<I, P>, timer: bool, finished: Option<Completion<I, P>>) {
    |h.events| == 0 && !timer && finished.Some?
  }

  // ----- The reference: the latest identify and the pushes after it -----

  function LastIdentify<I, P>(cs: seq<Completion<I, P>>): (r: Option<nat>)
    ensures r.Some? ==> r.value < |cs| && cs[r.value].ReceivedIdentify?
    ensures r.Some? ==> forall j :: r.value < j < |cs| ==> !cs[j].ReceivedIdentify?
    ensures r.None? ==> forall j :: 0 <= j < |cs| ==> !cs[j].ReceivedIdentify?
  {
    if cs == [] then None
    else if cs[|cs| - 1].ReceivedIdentify? then Some(|cs| - 1)
    else LastIdentify(cs[..|cs| - 1])
  }

  function MergePushes<I, P>(merge: Merge<I, P>, info: I, cs: seq<Completion<I, P>>): I {
    if cs == [] then info
    else
      var before := MergePushes(merge, info, cs[..|cs| - 1]);
      match cs[|cs| - 1]
      case ReceivedIdentifyPush(push) => merge(before, push)
      case _ => before
  }

  /** The latest full info with all later pushes merged in, in order; earlier pushes are lost. */
  function Latest<I, P>(merge: Merge<I, P>, cs: seq<Completion<I, P>>): Option<I> {
    match LastIdentify(cs)
    case None => None
    case Some(i) => Some(MergePushes(merge, cs[i].info, cs[i + 1..]))
  }

  /** Handling a finished stream takes the remote info from the latest so far to the latest after it. */
  lemma CompletionKeepsLatest<I, P>(merge: Merge<I, P>, cs: seq<Completion<I, P>>, c: Completion<I, P>)
    ensures OnCompletion(merge, Latest(merge, cs), c).0 == Latest(merge, cs + [c])
    ensures var notice := OnCompletion(merge, Latest(merge, cs), c).1;
            notice.Some? && notice.value.Identified? ==> Latest(merge, cs + [c]) == Some(notice.value.info)
    ensures c.ReceivedIdentifyPush? && LastIdentify(cs).Some? ==>
              OnCompletion(merge, Latest(merge, cs), c).1 == Some(Identified(Latest(merge, cs + [c]).value))
  {
    var more := cs + [c];
    assert more[..|cs|] == cs;
    if c.ReceivedIdentify? {
      assert more[|cs| + 1..] == [];
    } else if LastIdentify(cs).Some? {
      var i := LastIdentify(cs).value;
      assert LastIdentify(more) == Some(i);
      assert more[i + 1..][..|cs| - i - 1] == cs[i + 1..];
    }
  }

  // ----- Runs -----

  datatype Input<I, P> =
    | Told(event: InEvent)
    | Connection(change: ConnectionEvent)
    | Polled(timer: bool, finished: Option<Completion<I, P>>)

  /** A run of the handler: its state, the streams it took, the dials that failed, and what it reported. */
  datatype Run<I, P> = Run(
    h: State<I, P>,
    taken: seq<Completion<I, P>>,
    dialed: seq<Cause>,
    reported: seq<Event<I, P>>)

  function OutputOf<I, P>(merge: Merge<I, P>, h: State<I, P>, input: Input<I, P>): Option<Output<I, P>> {
    if input.Polled? then Poll(merge, h, input.timer, input.finished).1 else None
  }

  function Yielded<I, P>(out: Option<Output<I, P>>): seq<Event<I, P>> {
    match out
    case Some(Notify(e)) => [e]
    case _ => []
  }

  function RunOne<I, P>(merge: Merge<I, P>, run: Run<I, P>, input: Input<I, P>): Run<I, P> {
    match input
    case Told(e) => run.(h := OnBehaviourEvent(run.h, e))
    case Connection(e) =>
      run.(h := OnConnectionEvent(run.h, e), dialed := run.dialed + if e.DialFailed? then [e.cause] else [])
    case Polled(timer, finished) =>
      var (h, out) := Poll(merge, run.h, timer, finished);
      Run(h,
          if Consumes(run.h, timer, finished) then run.taken + [finished.value] else run.taken,
          run.dialed,
          run.reported + Yielded(out))
  }

  function RunAll<I, P>(merge: Merge<I, P>, addresses: set<Addr>, inputs: seq<Input<I, P>>): Run<I, P> {
    if inputs == [] then Run(New(addresses), [], [], [])
    else RunOne(merge, RunAll(merge, addresses, inputs[..|inputs| - 1]), inputs[|inputs| - 1])
  }

  // ----- What was reported, and what a history calls for -----

  /** Reports sorted by kind. */
  datatype Tally<I, P> = Tally(
    infos: seq<I>,
    identifications: nat,
    pushes: seq<P>,
    failures: seq<Cause>,
    timeouts: nat)

  function Tallied<I, P>(es: seq<Event<I, P>>): Tally<I, P> {
    if es == [] then Tally([], 0, [], [], 0)
    else
      var t := Tallied(es[..|es| - 1]);
      match es[|es| - 1]
      case Identified(info) => t.(infos := t.infos + [info])
      case Identification => t.(identifications := t.identifications + 1)
      case IdentificationPushed(push) => t.(pushes := t.pushes + [push])
      case IdentificationFailed(cause) => t.(failures := t.failures + [cause])
      case IdentificationTimedOut => t.(timeouts := t.timeouts + 1)
  }

  /**
   What the finished streams call for: the latest info after each identify and after each push that
   follows one, a report for each identify sent, each push sent, each failure and each time-out.
   */
  function Owed<I, P>(merge: Merge<I, P>, cs: seq<Completion<I, P>>): Tally<I, P> {
    if cs == [] then Tally([], 0, [], [], 0)
    else
      var t := Owed(merge, cs[..|cs| - 1]);
      match cs[|cs| - 1]
      case SentIdentify => t.(identifications := t.identifications + 1)
      case SentIdentifyPush(push) => t.(pushes := t.pushes + [push])
      case Failed(cause) => t.(failures := t.failures + [cause])
      case TimedOut => t.(timeouts := t.timeouts + 1)
      case _ => if Latest(merge, cs).Some? then t.(infos := t.infos + [Latest(merge, cs).value]) else t
  }

  /** All that the streams and the failed dials call for was reported once, but for the given failed dials. */
  ghost predicate Settled<I, P>(
    merge: Merge<I, P>, taken: seq<Completion<I, P>>, dialed: seq<Cause>, reported: seq<Event<I, P>>,
    unreported: seq<Cause>)
  {
    var told, owed := Tallied(reported), Owed(merge, taken);
    && told.infos == owed.infos && told.identifications == owed.identifications
    && told.pushes == owed.pushes && told.timeouts == owed.timeouts
    && multiset(told.failures) + multiset(unreported) == multiset(owed.failures) + multiset(dialed)
    && multiset(unreported) <= multiset(dialed)
  }

  /** The only notices that are queued are of failed dials; all others are yielded directly. */
  ghost predicate OnlyFailures<I, P>(events: seq<Output<I, P>>) {
    forall i :: 0 <= i < |events| && events[i].Notify? ==> events[i].event.IdentificationFailed?
  }

  function CauseOf<I, P>(out: Option<Output<I, P>>): seq<Cause> {
    match out
    case Some(Notify(IdentificationFailed(cause))) => [cause]
    case _ => []
  }

  /** The causes of the pending notices, oldest first. */
  function Pending<I, P>(events: seq<Output<I, P>>): seq<Cause> {
    if events == [] then [] else Pending(events[..|events| - 1]) + CauseOf(Some(events[|events| - 1]))
  }

  /** The remote info and the reports are those of the history, and what is unreported is pending. */
  ghost predicate UpToDate<I, P>(merge: Merge<I, P>, run: Run<I, P>) {
    && run.h.remoteInfo == Latest(merge, run.taken)
    && OnlyFailures(run.h.events)
    && Settled(merge, run.taken, run.dialed, run.reported, Pending(run.h.events))
  }

  // ----- One lemma per step -----

  /** The failure that an input brings: of a dial, or of a stream that is taken. */
  function NewFailure<I, P>(h: State<I, P>, input: Input<I, P>): seq<Cause> {
    match input
    case Connection(DialFailed(cause)) => [cause]
    case Polled(timer, Some(Failed(cause))) => if Consumes(h, timer, input.finished) then [cause] else []
    case _ => []
  }

  /**
   Each step conserves failures, taking pending ones from the end: those pending after it, followed by
   the one it reports, are those pending before, followed by the new one.
   */
  lemma NoticesConserved<I, P>(merge: Merge<I, P>, run: Run<I, P>, input: Input<I, P>)
    ensures var h, h' := run.h, RunOne(merge, run, input).h;
            Pending(h'.events) + CauseOf(OutputOf(merge, h, input)) == Pending(h.events) + NewFailure(h, input)
  {
    hide Pending, OnCompletion;
    var h, h' := run.h, RunOne(merge, run, input).h;
    match input
    case Polled(timer, finished) =>
      if |h.events| > 0 {
        LastPending(h.events);
      } else if Consumes(h, timer, finished) {
        CompletionFails(merge, h.remoteInfo, finished.value);
      }
    case _ =>
      if h'.events != h.events {
        assert h'.events[..|h.events|] == h.events;
        LastPending(h'.events);
      }
  }

  lemma LastPending<I, P>(events: seq<Output<I, P>>)
    requires events != []
    ensures Pending(events) == Pending(events[..|events| - 1]) + CauseOf(Some(events[|events| - 1]))
  {
  }

  lemma CompletionFails<I, P>(merge: Merge<I, P>, remote: Option<I>, c: Completion<I, P>)
    ensures var notice := OnCompletion(merge, remote, c).1;
            (if notice.Some? then CauseOf(Some(Notify(notice.value))) else []) == if c.Failed? then [c.cause] else []
  {
  }

  /** A stream adds the same to what was reported and to what is called for. */
  lemma TallyStep<I, P>(merge: Merge<I, P>, cs: seq<Completion<I, P>>, c: Completion<I, P>, es: seq<Event<I, P>>)
    ensures var notice := OnCompletion(merge, Latest(merge, cs), c).1;
            var told, told' := Tallied(es), Tallied(es + if notice.Some? then [notice.value] else []);
            var owed, owed' := Owed(merge, cs), Owed(merge, cs + [c]);
            var failure := if c.Failed? then [c.cause] else [];
            && (told.infos == owed.infos ==> told'.infos == owed'.infos)
            && (told.identifications == owed.identifications ==> told'.identifications == owed'.identifications)
            && (told.pushes == owed.pushes ==> told'.pushes == owed'.pushes)
            && (told.timeouts == owed.timeouts ==> told'.timeouts == owed'.timeouts)
            && told'.failures == told.failures + failure && owed'.failures == owed.failures + failure
  {
    CompletionKeepsLatest(merge, cs, c);
    assert (cs + [c])[..|cs|] == cs;
    var notice := OnCompletion(merge, Latest(merge, cs), c).1;
    if notice.Some? {
      assert (es + [notice.value])[..|es|] == es;
    } else {
      assert es + [] == es;
    }
  }

  lemma CountsAdd(a: seq<Cause>, b: seq<Cause>, c: seq<Cause>, d: seq<Cause>, more: seq<Cause>)
    requires multiset(a) + multiset(b) == multiset(c) + multiset(d)
    ensures multiset(a + more) + multiset(b) == multiset(c + more) + multiset(d)
    ensures multiset(a) + multiset(b + more) == multiset(c) + multiset(d + more)
    ensures multiset(b) <= multiset(d) ==> multiset(b + more) <= multiset(d + more)
  {
    assert multiset(a + more) + multiset(b) == multiset(a) + multiset(b) + multiset(more);
    assert multiset(c + more) + multiset(d) == multiset(c) + multiset(d) + multiset(more);
    assert multiset(a) + multiset(b + more) == multiset(a) + multiset(b) + multiset(more);
    assert multiset(c) + multiset(d + more) == multiset(c) + multiset(d) + multiset(more);
  }

  /** Reporting a failed dial settles it. */
  lemma ReportSettles<I, P>(
    merge: Merge<I, P>, taken: seq<Completion<I, P>>, dialed: seq<Cause>, reported: seq<Event<I, P>>,
    rest: seq<Cause>, cause: Cause)
    requires Settled(merge, taken, dialed, reported, rest + [cause])
    ensures Settled(merge, taken, dialed, reported + [IdentificationFailed(cause)], rest)
  {
    assert (reported + [IdentificationFailed(cause)])[..|reported|] == reported;
    var told := Tallied(reported).failures;
    assert Tallied(reported + [IdentificationFailed(cause)]).failures == told + [cause];
    assert multiset(told + [cause]) + multiset(rest) == multiset(told) + multiset(rest + [cause]);
  }

  lemma TakingKeepsTally<I, P>(merge: Merge<I, P>, run: Run<I, P>, c: Completion<I, P>)
    requires run.h.remoteInfo == Latest(merge, run.taken) && |run.h.events| == 0
    requires Settled(merge, run.taken, run.dialed, run.reported, [])
    ensures var run' := RunOne(merge, run, Polled(false, Some(c)));
            run'.h.remoteInfo == Latest(merge, run'.taken) &&
            Settled(merge, run'.taken, run'.dialed, run'.reported, [])
  {
    hide Tallied, Owed, Latest;
    CompletionKeepsLatest(merge, run.taken, c);
    TallyStep(merge, run.taken, c, run.reported);
    var notice := OnCompletion(merge, Latest(merge, run.taken), c).1;
    var run' := RunOne(merge, run, Polled(false, Some(c)));
    assert run'.taken == run.taken + [c] && run'.reported == run.reported + if notice.Some? then [notice.value] else [];
    CountsAdd(Tallied(run.reported).failures, [], Owed(merge, run.taken).failures, run.dialed,
              if c.Failed? then [c.cause] else []);
  }

  lemma PopKeepsSettled<I, P>(merge: Merge<I, P>, run: Run<I, P>, timer: bool, finished: Option<Completion<I, P>>)
    requires UpToDate(merge, run) && |run.h.events| > 0
    ensures UpToDate(merge, RunOne(merge, run, Polled(timer, finished)))
  {
    hide Settled, Latest, Pending, OnCompletion;
    var run' := RunOne(merge, run, Polled(timer, finished));
    var last := run.h.events[|run.h.events| - 1];
    LastPending(run.h.events);
    if last.Notify? {
      assert last.event.IdentificationFailed?;
      ReportSettles(merge, run.taken, run.dialed, run.reported, Pending(run'.h.events), last.event.cause);
    } else {
      assert run'.reported == run.reported && Pending(run'.h.events) == Pending(run.h.events);
    }
  }

  lemma DialSettles<I, P>(
    merge: Merge<I, P>, taken: seq<Completion<I, P>>, dialed: seq<Cause>, reported: seq<Event<I, P>>,
    rest: seq<Cause>, more: seq<Cause>)
    requires Settled(merge, taken, dialed, reported, rest)
    ensures Settled(merge, taken, dialed + more, reported, rest + more)
  {
    CountsAdd(Tallied(reported).failures, rest, Owed(merge, taken).failures, dialed, more);
  }

  /** A failed dial is owed and pending; nothing else that is told changes what is owed. */
  lemma InputKeepsSettled<I, P>(merge: Merge<I, P>, run: Run<I, P>, input: Input<I, P>)
    requires UpToDate(merge, run) && !input.Polled?
    ensures UpToDate(merge, RunOne(merge, run, input))
  {
    hide Settled, Latest, Pending;
    NoticesConserved(merge, run, input);
    var run', more := RunOne(merge, run, input), NewFailure(run.h, input);
    assert Pending(run'.h.events) == Pending(run.h.events) + more && run'.dialed == run.dialed + more;
    DialSettles(merge, run.taken, run.dialed, run.reported, Pending(run.h.events), more);
  }

  lemma StepKeepsUpToDate<I, P>(merge: Merge<I, P>, run: Run<I, P>, input: Input<I, P>)
    requires UpToDate(merge, run)
    ensures var run' := RunOne(merge, run, input);
            && UpToDate(merge, run') && run'.h.remoteInfo == Latest(merge, run'.taken)
            && Settled(merge, run'.taken, run'.dialed, run'.reported, Pending(run'.h.events))
  {
    match input
    case Polled(timer, finished) =>
      if |run.h.events| > 0 {
        PopKeepsSettled(merge, run, timer, finished);
      } else if Consumes(run.h, timer, finished) {
        TakingKeepsTally(merge, run, finished.value);
      } else {
        assert run.reported + [] == run.reported;
      }
    case _ => InputKeepsSettled(merge, run, input);
  }

  /**
   In every run, the remote info is the latest identify with all later pushes merged in, and the reports
   are those that the streams and failed dials call for, all but the failed dials still pending.
   */
  lemma {:induction false} RemoteInfoIsLatest<I, P>(merge: Merge<I, P>, addresses: set<Addr>, inputs: seq<Input<I, P>>)
    ensures var run := RunAll(merge, addresses, inputs);
            && run.h.remoteInfo == Latest(merge, run.taken)
            && Settled(merge, run.taken, run.dialed, run.reported, Pending(run.h.events))
    ensures UpToDate(merge, RunAll(merge, addresses, inputs))
  {
    if inputs != [] {
      var n := |inputs| - 1;
      RemoteInfoIsLatest(merge, addresses, inputs[..n]);
      StepKeepsUpToDate(merge, RunAll(merge, addresses, inputs[..n]), inputs[n]);
    }
  }

  // ----- Pushes asked for are opened -----

  /** The pushes that the inputs call for: when told, and when protocols change after an identify came in. */
  ghost function CalledFor<I, P>(inputs: seq<Input<I, P>>): nat {
    if inputs == [] then 0
    else
      var n := |inputs| - 1;
      var calls := || inputs[n] == Told(PushNow)
                   || (inputs[n] == Connection(ProtocolsChanged(true)) && IdentifyCameIn(inputs[..n]));
      CalledFor(inputs[..n]) + if calls then 1 else 0
  }

  ghost predicate IdentifyCameIn<I, P>(inputs: seq<Input<I, P>>) {
    exists i :: 0 <= i < |inputs| && inputs[i] == Connection(InboundIdentify(true))
  }

  function Opened<I, P>(merge: Merge<I, P>, addresses: set<Addr>, inputs: seq<Input<I, P>>): nat {
    if inputs == [] then 0
    else
      var n := |inputs| - 1;
      var out := OutputOf(merge, RunAll(merge, addresses, inputs[..n]).h, inputs[n]);
      Opened(merge, addresses, inputs[..n]) + if out.Some? && out.value.OpenPush? then 1 else 0
  }

  function PendingPushes<I, P>(events: seq<Output<I, P>>): nat {
    if events == [] then 0
    else PendingPushes(events[..|events| - 1]) + if events[|events| - 1].OpenPush? then 1 else 0
  }

  lemma PushStep<I, P>(merge: Merge<I, P>, run: Run<I, P>, input: Input<I, P>)
    ensures var h, h', out := run.h, RunOne(merge, run, input).h, OutputOf(merge, run.h, input);
            && PendingPushes(h'.events) + (if out.Some? && out.value.OpenPush? then 1 else 0) ==
               PendingPushes(h.events) +
               (if input == Told(PushNow) || (input == Connection(ProtocolsChanged(true)) && h.exchanged) then 1 else 0)
            && (h'.exchanged <==> h.exchanged || input == Connection(InboundIdentify(true)))
  {
    var events, events' := run.h.events, RunOne(merge, run, input).h.events;
    if |events'| > |events| {
      assert events'[..|events|] == events;
    }
  }

  lemma CameInLast<I, P>(inputs: seq<Input<I, P>>, n: nat)
    requires |inputs| == n + 1
    ensures IdentifyCameIn(inputs) <==> IdentifyCameIn(inputs[..n]) || inputs[n] == Connection(InboundIdentify(true))
  {
    var init := inputs[..n];
    if i :| 0 <= i < n && init[i] == Connection(InboundIdentify(true)) {
      assert inputs[i] == init[i];
    }
    if i :| 0 <= i < |inputs| && inputs[i] == Connection(InboundIdentify(true)) {
      assert i < n ==> init[i] == inputs[i];
    }
  }

  /** In every run, the push streams requested are those called for, all but the ones still pending. */
  lemma {:induction false} PushesConserved<I, P>(merge: Merge<I, P>, addresses: set<Addr>, inputs: seq<Input<I, P>>)
    ensures var h := RunAll(merge, addresses, inputs).h;
            && Opened(merge, addresses, inputs) + PendingPushes(h.events) == CalledFor(inputs)
            && (h.exchanged <==> IdentifyCameIn(inputs))
  {
    hide RunOne, OutputOf, IdentifyCameIn;
    if inputs != [] {
      var n := |inputs| - 1;
      PushesConserved(merge, addresses, inputs[..n]);
      PushStep(merge, RunAll(merge, addresses, inputs[..n]), inputs[n]);
      CameInLast(inputs, n);
    } else {
      NoneCameIn<I, P>();
    }
  }

  lemma NoneCameIn<I, P>()
    ensures !IdentifyCameIn<I, P>([])
  {
  }

  // ----- Pending notices are yielded last first -----

  function Dialed<I, P>(h: State<I, P>, causes: seq<Cause>): State<I, P> {
    if causes == [] then h
    else OnConnectionEvent(Dialed(h, causes[..|causes| - 1]), DialFailed(causes[|causes| - 1]))
  }

  /** The handler and what it yielded, after being polled `n` times. */
  function PolledTimes<I, P>(
    merge: Merge<I, P>, h: State<I, P>, n: nat, timer: bool, finished: Option<Completion<I, P>>)
    : (State<I, P>, seq<Option<Output<I, P>>>)
    decreases n
  {
    if n == 0 then (h, [])
    else
      var (next, out) := Poll(merge, h, timer, finished);
      var (last, outs) := PolledTimes(merge, next, n - 1, timer, finished);
      (last, [out] + outs)
  }

  /** Failed dials that have not been reported yet are reported in reverse, before anything else. */
  lemma {:induction false} FailedDialsReversed<I, P>(
    merge: Merge<I, P>, h: State<I, P>, causes: seq<Cause>, timer: bool, finished: Option<Completion<I, P>>)
    ensures var n := |causes|;
            var (last, outs) := PolledTimes(merge, Dialed(h, causes), n, timer, finished);
            && last == h && |outs| == n
            && forall i :: 0 <= i < n ==> outs[i] == Some(Notify(IdentificationFailed(causes[n - 1 - i])))
  {
    if causes != [] {
      var n := |causes| - 1;
      FailedDialsReversed(merge, h, causes[..n], timer, finished);
      var before := Dialed(h, causes[..n]);
      var notice: Output<I, P> := Notify(IdentificationFailed(causes[n]));
      assert (before.events + [notice])[..|before.events|] == before.events;
      assert Poll(merge, Dialed(h, causes), timer, finished) == (before, Some(notice));
    }
  }

  // ----- The handler object -----

  class Handler<I, P> {
    var externalAddresses: set<Addr>
    var remoteInfo: Option<I>
    var events: seq<Output<I, P>>
    var exchangedOnePeriodicIdentify: bool
    const merge: Merge<I, P>
    ghost var taken: seq<Completion<I, P>>
    ghost var dialed: seq<Cause>
    ghost var reported: seq<Event<I, P>>

    ghost function View(): State<I, P>
      reads this
    {
      State(externalAddresses, remoteInfo, events, exchangedOnePeriodicIdentify)
    }

    /** The handler with the streams it has taken, the dials that failed and the reports it has yielded. */
    ghost function History(): Run<I, P>
      reads this
    {
      Run(View(), taken, dialed, reported)
    }

    /** What is remembered and what was reported are those of the history. */
    ghost predicate Valid()
      reads this
    {
      UpToDate(merge, History())
    }

    constructor (addresses: set<Addr>, merge: Merge<I, P>)
      ensures Valid() && View() == New(addresses) && this.merge == merge
      ensures taken == [] && dialed == [] && reported == []
    {
      externalAddresses, remoteInfo, events := addresses, None, [];
      exchangedOnePeriodicIdentify := false;
      this.merge := merge;
      taken, dialed, reported := [], [], [];
    }

    /** The addresses are replaced by those told; what is known of the remote is untouched. */
    method Receive(e: InEvent)
      requires Valid()
      modifies this
      ensures Valid() && History() == RunOne(merge, old(History()), Told(e))
      ensures externalAddresses == if e.AddressesChanged? then e.addresses else old(externalAddresses)
      ensures remoteInfo == Latest(merge, taken) && taken == old(taken)
      ensures events == old(events) + if e.PushNow? then [OpenPush] else []
    {
      hide UpToDate, Settled, Latest, Pending;
      StepKeepsUpToDate(merge, History(), Told(e));
      match e
      case AddressesChanged(addresses) => externalAddresses := addresses;
      case PushNow => events := events + [OpenPush];
    }

    /** A protocol change is pushed only once an identify has been exchanged. */
    method ConnectionChanged(e: ConnectionEvent)
      requires Valid()
      modifies this
      ensures Valid() && History() == RunOne(merge, old(History()), Connection(e))
      ensures remoteInfo == Latest(merge, taken) && taken == old(taken)
      ensures exchangedOnePeriodicIdentify == (old(exchangedOnePeriodicIdentify) || e == InboundIdentify(true))
      ensures e == ProtocolsChanged(true) && old(exchangedOnePeriodicIdentify) ==> events == old(events) + [OpenPush]
      ensures e == ProtocolsChanged(true) && !old(exchangedOnePeriodicIdentify) ==> events == old(events)
      ensures e == ProtocolsChanged(false) || e.InboundIdentify? ==> events == old(events)
      ensures e.DialFailed? ==> events == old(events) + [Notify(IdentificationFailed(e.cause))]
    {
      hide UpToDate, Settled, Latest, Pending;
      StepKeepsUpToDate(merge, History(), Connection(e));
      dialed := dialed + if e.DialFailed? then [e.cause] else [];
      match e
      case InboundIdentify(accepted) =>
        if accepted {
          exchangedOnePeriodicIdentify := true;
        }
      case DialFailed(cause) =>
        events := events + [Notify(IdentificationFailed(cause))];
      case ProtocolsChanged(changed) =>
        if changed && exchangedOnePeriodicIdentify {
          events := events + [OpenPush];
        }
    }

    /**
     Whatever is polled, the remote info is the latest identify with all later pushes merged in, and an
     identified notice carries exactly that.
     */
    method PollOnce(timer: bool, finished: Option<Completion<I, P>>) returns (out: Option<Output<I, P>>)
      requires Valid()
      modifies this
      ensures Valid() && History() == RunOne(merge, old(History()), Polled(timer, finished))
      ensures remoteInfo == Latest(merge, taken)
      ensures Settled(merge, taken, dialed, reported, Pending(events)) && dialed == old(dialed)
      ensures taken == old(taken) + if old(events) == [] && !timer && finished.Some? then [finished.value] else []
      ensures reported == old(reported) + if out.Some? && out.value.Notify? then [out.value.event] else []
      ensures out.Some? && out.value.Notify? && out.value.event.Identified? ==>
                remoteInfo == Some(out.value.event.info)
      ensures match if old(events) == [] && !timer then finished else None
              case Some(ReceivedIdentify(info)) => remoteInfo == Some(info)
              case Some(ReceivedIdentifyPush(push)) =>
                remoteInfo == if old(remoteInfo).None? then None else Some(merge(old(remoteInfo).value, push))
              case _ => remoteInfo == old(remoteInfo)
      ensures old(events) != [] ==> out.Some? && events + [out.value] == old(events)
      ensures old(events) == [] && timer ==> out == Some(OpenIdentify) && events == []
    {
      hide UpToDate, Settled, Latest, Pending;
      StepKeepsUpToDate(merge, History(), Polled(timer, finished));
      AnnouncesLatest(merge, History(), timer, finished);
      ghost var before := History();
      out := Take(timer, finished);
      if Consumes(before.h, timer, finished) {
        taken := taken + [finished.value];
      }
      reported := reported + Yielded(out);
    }

    /** The branches of a poll, in the order of the source. */
    method Take(timer: bool, finished: Option<Completion<I, P>>) returns (out: Option<Output<I, P>>)
      modifies this`events, this`remoteInfo
      ensures (View(), out) == Poll(merge, old(View()), timer, finished)
    {
      if |events| > 0 {
        out := Some(events[|events| - 1]);
        events := events[..|events| - 1];
        return;
      }
      if timer {
        return Some(OpenIdentify);
      }
      if finished.None? {
        return None;
      }
      match finished.value
      case ReceivedIdentify(info) =>
        remoteInfo := Some(info);
        return Some(Notify(Identified(info)));
      case SentIdentifyPush(push) =>
        return Some(Notify(IdentificationPushed(push)));
      case SentIdentify =>
        return Some(Notify(Identification));
      case ReceivedIdentifyPush(push) =>
        if remoteInfo.Some? {
          var info := merge(remoteInfo.value, push);
          remoteInfo := Some(info);
          return Some(Notify(Identified(info)));
        }
        return None;
      case Failed(cause) =>
        return Some(Notify(IdentificationFailed(cause)));
      case TimedOut =>
        return Some(Notify(IdentificationTimedOut));
    }
  }

  /** An identified notice is yielded together with the info it carries becoming the remembered one. */
  lemma AnnouncesLatest<I, P>(merge: Merge<I, P>, run: Run<I, P>, timer: bool, finished: Option<Completion<I, P>>)
    requires UpToDate(merge, run)
    ensures var (h, out) := Poll(merge, run.h, timer, finished);
            out.Some? && out.value.Notify? && out.value.event.Identified? ==>
              h.remoteInfo == Some(out.value.event.info)
  {
    hide Settled, Latest;
  }
}
