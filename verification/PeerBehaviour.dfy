/** The peer-info behaviour: which connections are open, and what is queued for whom. */
module PeerBehaviour {
  import opened Types
  import H = PeerHandler

  type Addr = H.Addr
  type Peer = nat
  type Conn = nat

  datatype Target = One(conn: Conn) | Any

  datatype ToSwarm<I, P> =
    | NotifyHandler(peer: Peer, target: Target, event: H.InEvent)
    | Generate(source: Peer, report: H.Event<I, P>)

  datatype Behaviour<I, P> = Behaviour(
    connected: map<Peer, map<Conn, Addr>>,
    listen: set<Addr>,
    external: set<Addr>,
    events: seq<ToSwarm<I, P>>,
    pushUpdates: bool)

  function AllAddresses<I, P>(b: Behaviour<I, P>): set<Addr> {
    b.listen + b.external
  }

  function Start<I, P>(pushUpdates: bool): Behaviour<I, P> {
    Behaviour(map[], {}, {}, [], pushUpdates)
  }

  // ----- Connections -----

  function ConnectionsOf(connected: map<Peer, map<Conn, Addr>>, p: Peer): map<Conn, Addr> {
    if p in connected then connected[p] else map[]
  }

  predicate Linked(connected: map<Peer, map<Conn, Addr>>, p: Peer, c: Conn) {
    p in connected && c in connected[p]
  }

  function Established<I, P>(b: Behaviour<I, P>, p: Peer, c: Conn, addr: Addr): Behaviour<I, P> {
    b.(connected := b.connected[p := ConnectionsOf(b.connected, p)[c := addr]])
  }

  function Closed<I, P>(b: Behaviour<I, P>, p: Peer, c: Conn, remaining: nat): Behaviour<I, P> {
    if remaining == 0 then b.(connected := b.connected - {p})
    else if p in b.connected then b.(connected := b.connected[p := b.connected[p] - {c}])
    else b
  }

  /** The other open connections of a peer. */
  function Others(open: map<Conn, Peer>, p: Peer, c: Conn): set<Conn> {
    set c' | c' in open && open[c'] == p && c' != c
  }

  /** The behaviour records exactly the open connections, and no peer without one. */
  ghost predicate ConnectedIsOpen(connected: map<Peer, map<Conn, Addr>>, open: map<Conn, Peer>) {
    && (forall p: Peer, c: Conn :: Linked(connected, p, c) <==> c in open && open[c] == p)
    && (forall p :: p in connected ==> exists c: Conn :: Linked(connected, p, c))
  }

  /** Every recorded connection but `c` is still recorded, with the address it had. */
  ghost predicate KeepsAddresses(before: map<Peer, map<Conn, Addr>>, after: map<Peer, map<Conn, Addr>>, c: Conn) {
    forall p: Peer, c': Conn :: Linked(before, p, c') && c' != c ==>
      Linked(after, p, c') && after[p][c'] == before[p][c']
  }

  lemma EstablishKeepsConnected<I, P>(b: Behaviour<I, P>, open: map<Conn, Peer>, p: Peer, c: Conn, addr: Addr)
    requires ConnectedIsOpen(b.connected, open) && c !in open
    ensures ConnectedIsOpen(Established(b, p, c, addr).connected, open[c := p])
  {
    var b' := Established(b, p, c, addr);
    forall q: Peer, c': Conn
      ensures Linked(b'.connected, q, c') <==> Linked(b.connected, q, c') || (q == p && c' == c)
    {
    }
    forall q | q in b'.connected ensures exists c': Conn :: Linked(b'.connected, q, c') {
      if q == p {
        assert Linked(b'.connected, p, c);
      } else {
        var c' :| Linked(b.connected, q, c');
        assert Linked(b'.connected, q, c');
      }
    }
  }

  /** Closing keeps the record exact if and only if the remaining count is zero just for the last connection. */
  lemma CloseKeepsConnectedIff<I, P>(b: Behaviour<I, P>, open: map<Conn, Peer>, c: Conn, remaining: nat)
    requires ConnectedIsOpen(b.connected, open) && c in open
    ensures ConnectedIsOpen(Closed(b, open[c], c, remaining).connected, open - {c}) <==>
            (remaining == 0 <==> Others(open, open[c], c) == {})
  {
    var p := open[c];
    var b', open' := Closed(b, p, c, remaining), open - {c};
    assert Linked(b.connected, p, c);
    if remaining == 0 && Others(open, p, c) != {} {
      var c' :| c' in Others(open, p, c);
      assert c' in open' && !Linked(b'.connected, p, c');
    } else if remaining != 0 && Others(open, p, c) == {} {
      assert p in b'.connected;
      forall c': Conn ensures !Linked(b'.connected, p, c') {
        assert Linked(b.connected, p, c') ==> c' == c || c' in Others(open, p, c);
      }
    } else {
      forall q: Peer, c': Conn ensures Linked(b'.connected, q, c') <==> c' in open' && open'[c'] == q {
        assert Linked(b.connected, q, c') <==> c' in open && open[c'] == q;
        assert q == p && c' in open' && open'[c'] == q ==> c' in Others(open, p, c);
      }
      forall q | q in b'.connected ensures exists c': Conn :: Linked(b'.connected, q, c') {
        if q == p {
          var c' :| c' in Others(open, p, c);
          assert Linked(b'.connected, p, c');
        } else {
          var c' :| Linked(b.connected, q, c');
          assert Linked(b'.connected, q, c');
        }
      }
    }
  }

  // ----- Addresses -----

  /** A swarm event as the two address books see it: their new contents, and whether each reports a change. */
  datatype AddressEvent = AddressEvent(
    listen: set<Addr>,
    external: set<Addr>,
    listenChanged: bool,
    externalChanged: bool)

  predicate Reported<I, P>(b: Behaviour<I, P>, e: AddressEvent) {
    (e.listen != b.listen ==> e.listenChanged) && (e.external != b.external ==> e.externalChanged)
  }

  function Notices<I, P>(order: seq<(Peer, Conn)>, addresses: set<Addr>): (r: seq<ToSwarm<I, P>>)
    ensures |r| == |order|
    ensures forall i :: 0 <= i < |r| ==>
              r[i] == NotifyHandler(order[i].0, One(order[i].1), H.AddressesChanged(addresses))
  {
    seq(|order|, i requires 0 <= i < |order| =>
      NotifyHandler(order[i].0, One(order[i].1), H.AddressesChanged(addresses)))
  }

  function PushNotices<I, P>(peers: seq<Peer>): (r: seq<ToSwarm<I, P>>)
    ensures |r| == |peers|
    ensures forall i :: 0 <= i < |r| ==> r[i] == NotifyHandler(peers[i], Any, H.PushNow)
  {
    seq(|peers|, i requires 0 <= i < |peers| => NotifyHandler(peers[i], Any, H.PushNow))
  }

  /** The order lists every connection once. */
  ghost predicate ListsLinks(order: seq<(Peer, Conn)>, connected: map<Peer, map<Conn, Addr>>) {
    && NoDup(order)
    && forall p: Peer, c: Conn :: (p, c) in order <==> Linked(connected, p, c)
  }

  /** The connections and peers are notified in the given orders. */
  function AddressesSeen<I, P>(b: Behaviour<I, P>, e: AddressEvent, order: seq<(Peer, Conn)>, peers: seq<Peer>)
    : Behaviour<I, P>
  {
    var seen := b.(listen := e.listen, external := e.external);
    var told := if e.listenChanged || e.externalChanged
                then seen.(events := seen.events + Notices(order, AllAddresses(seen))) else seen;
    if e.listenChanged && b.pushUpdates then told.(events := told.events + PushNotices(peers)) else told
  }

  /** The positions of the connected peers in a list: each of them, once and in order. */
  function ConnectedAt(connected: map<Peer, map<Conn, Addr>>, peers: seq<Peer>): (r: seq<nat>)
    ensures forall i :: 0 <= i < |r| ==> r[i] < |peers| && peers[r[i]] in connected
    ensures forall j :: 0 <= j < |peers| && peers[j] in connected ==> j in r
    ensures forall i, j :: 0 <= i < j < |r| ==> r[i] < r[j]
  {
    if peers == [] then []
    else
      var n := |peers| - 1;
      var init := ConnectedAt(connected, peers[..n]);
      if peers[n] in connected then init + [n] else init
  }

  function ConnectedAmong(connected: map<Peer, map<Conn, Addr>>, peers: seq<Peer>): (r: seq<Peer>)
    ensures |r| == |ConnectedAt(connected, peers)|
    ensures forall i :: 0 <= i < |r| ==> r[i] == peers[ConnectedAt(connected, peers)[i]]
  {
    var at := ConnectedAt(connected, peers);
    seq(|at|, i requires 0 <= i < |at| => peers[at[i]])
  }

  /** One push for each of the peers that is connected, in the order of the list. */
  function Pushed<I, P>(b: Behaviour<I, P>, peers: seq<Peer>): Behaviour<I, P> {
    b.(events := b.events + PushNotices(ConnectedAmong(b.connected, peers)))
  }

  /** The positions, in increasing order, of exactly the connected peers of a list. */
  ghost predicate AreConnected(at: seq<nat>, connected: map<Peer, map<Conn, Addr>>, peers: seq<Peer>) {
    && (forall i :: 0 <= i < |at| ==> at[i] < |peers|)
    && (forall i, j :: 0 <= i < j < |at| ==> at[i] < at[j])
    && (forall j :: 0 <= j < |peers| ==> (j in at <==> peers[j] in connected))
  }

  /** What was queued since: a push to the peer at each of the positions. */
  ghost predicate PushesTo<I, P>(
    before: seq<ToSwarm<I, P>>, after: seq<ToSwarm<I, P>>, peers: seq<Peer>, at: seq<nat>)
    requires forall i :: 0 <= i < |at| ==> at[i] < |peers|
  {
    && |after| == |before| + |at| && after[..|before|] == before
    && forall i :: 0 <= i < |at| ==> after[|before| + i] == NotifyHandler(peers[at[i]], Any, H.PushNow)
  }

  lemma PushedAt<I, P>(b: Behaviour<I, P>, peers: seq<Peer>) returns (at: seq<nat>)
    ensures AreConnected(at, b.connected, peers) && PushesTo(b.events, Pushed(b, peers).events, peers, at)
  {
    at := ConnectedAt(b.connected, peers);
  }

  lemma OneMoreTarget<I, P>(b: Behaviour<I, P>, peers: seq<Peer>, n: nat)
    requires n < |peers|
    ensures var before, p := Pushed(b, peers[..n]), peers[n];
            Pushed(b, peers[..n + 1]) ==
            if p in b.connected then before.(events := before.events + [NotifyHandler(p, Any, H.PushNow)]) else before
  {
    assert peers[..n + 1][..n] == peers[..n];
    var before, after := ConnectedAmong(b.connected, peers[..n]), ConnectedAmong(b.connected, peers[..n + 1]);
    assert after == before + if peers[n] in b.connected then [peers[n]] else [];
  }

  lemma NoTargets<I, P>(b: Behaviour<I, P>)
    ensures Pushed(b, []) == b
  {
  }

  /** What was queued since: the addresses to each connection listed, then a push to each peer listed. */
  ghost predicate Tells<I, P>(
    before: seq<ToSwarm<I, P>>, after: seq<ToSwarm<I, P>>, order: seq<(Peer, Conn)>, addresses: set<Addr>,
    peers: seq<Peer>)
  {
    var n := |before|;
    && |after| == n + |order| + |peers| && after[..n] == before
    && (forall i :: 0 <= i < |order| ==>
          after[n + i] == NotifyHandler(order[i].0, One(order[i].1), H.AddressesChanged(addresses)))
    && (forall i :: 0 <= i < |peers| ==> after[n + |order| + i] == NotifyHandler(peers[i], Any, H.PushNow))
  }

  lemma AddressesTell<I, P>(b: Behaviour<I, P>, e: AddressEvent, order: seq<(Peer, Conn)>, peers: seq<Peer>)
    ensures Tells(b.events, AddressesSeen(b, e, order, peers).events,
                  if e.listenChanged || e.externalChanged then order else [], e.listen + e.external,
                  if e.listenChanged && b.pushUpdates then peers else [])
  {
  }

  // ----- The behaviour object -----

  class BehaviourObject<I, P> {
    var connected: map<Peer, map<Conn, Addr>>
    var events: seq<ToSwarm<I, P>>
    var listenAddresses: set<Addr>
    var externalAddresses: set<Addr>
    const pushListenAddrUpdates: bool
    ghost var open: map<Conn, Peer>

    ghost function View(): Behaviour<I, P>
      reads this
    {
      Behaviour(connected, listenAddresses, externalAddresses, events, pushListenAddrUpdates)
    }

    /** The record of connections is exactly the open ones, with no peer left without one. */
    ghost predicate Valid()
      reads this
    {
      ConnectedIsOpen(connected, open)
    }

    constructor (pushUpdates: bool)
      ensures Valid() && View() == Start(pushUpdates) && open == map[]
    {
      connected, events, listenAddresses, externalAddresses := map[], [], {}, {};
      pushListenAddrUpdates := pushUpdates;
      open := map[];
    }

    method OnConnectionEstablished(p: Peer, c: Conn, addr: Addr)
      requires Valid() && c !in open
      modifies this`connected, this`open
      ensures Valid() && open == old(open)[c := p]
      ensures View() == Established(old(View()), p, c, addr)
      ensures Linked(connected, p, c) && connected[p][c] == addr
      ensures KeepsAddresses(old(connected), connected, c)
    {
      EstablishKeepsConnected(View(), open, p, c, addr);
      var connections := if p in connected then connected[p] else map[];
      connected := connected[p := connections[c := addr]];
      open := open[c := p];
    }

    /** The record stays exact if and only if the count is zero just for the peer's last connection. */
    method OnConnectionClosed(p: Peer, c: Conn, remaining: nat)
      requires Valid() && c in open && open[c] == p
      modifies this`connected, this`open
      ensures open == old(open) - {c}
      ensures Valid() <==> (remaining == 0 <==> Others(old(open), p, c) == {})
      ensures remaining == |Others(old(open), p, c)| ==> Valid()
      ensures View() == Closed(old(View()), p, c, remaining)
      ensures Valid() ==> KeepsAddresses(old(connected), connected, c)
    {
      CloseKeepsConnectedIff(View(), open, c, remaining);
      if remaining == 0 {
        connected := connected - {p};
      } else if p in connected {
        connected := connected[p := connected[p] - {c}];
      }
      open := open - {c};
    }

    /** Queues a notice for every connection, whatever order the maps are iterated in. */
    method OnAddressEvent(e: AddressEvent) returns (ghost order: seq<(Peer, Conn)>, ghost peers: seq<Peer>)
      modifies this`listenAddresses, this`externalAddresses, this`events
      ensures ListsLinks(order, connected) && NoDup(peers) && (forall p :: p in peers <==> p in connected)
      ensures View() == AddressesSeen(old(View()), e, order, peers)
      ensures listenAddresses == e.listen && externalAddresses == e.external
      ensures Tells(old(events), events, if e.listenChanged || e.externalChanged then order else [],
                    e.listen + e.external, if e.listenChanged && pushListenAddrUpdates then peers else [])
    {
      hide Tells;
      listenAddresses, externalAddresses := e.listen, e.external;
      var links := CollectLinks();
      order := links;
      if e.listenChanged || e.externalChanged {
        events := events + Notices(links, listenAddresses + externalAddresses);
      }
      var keys := CollectPeers();
      peers := keys;
      if e.listenChanged && pushListenAddrUpdates {
        events := events + PushNotices(keys);
      }
      AddressesTell(old(View()), e, order, peers);
    }

    method CollectPeers() returns (peers: seq<Peer>)
      ensures NoDup(peers) && forall p :: p in peers <==> p in connected
    {
      peers := [];
      var rest := connected.Keys;
      while rest != {}
        invariant rest <= connected.Keys && NoDup(peers)
        invariant forall p :: p in peers <==> p in connected && p !in rest
      {
        var p :| p in rest;
        AppendKeepsNoDup(peers, p);
        peers := peers + [p];
        rest := rest - {p};
      }
    }

    method CollectLinks() returns (order: seq<(Peer, Conn)>)
      ensures ListsLinks(order, connected)
    {
      order := [];
      var peers := connected.Keys;
      while peers != {}
        invariant peers <= connected.Keys && NoDup(order)
        invariant forall p: Peer, c: Conn :: (p, c) in order <==> Linked(connected, p, c) && p !in peers
      {
        var p :| p in peers;
        var conns := connected[p].Keys;
        while conns != {}
          invariant conns <= connected[p].Keys && NoDup(order)
          invariant forall q: Peer, c: Conn :: (q, c) in order <==>
                      Linked(connected, q, c) && (q !in peers || (q == p && c !in conns))
        {
          var c :| c in conns;
          AppendKeepsNoDup(order, (p, c));
          order := order + [(p, c)];
          conns := conns - {c};
        }
        peers := peers - {p};
      }
    }

    /** Queues one push for each position of the list that holds a connected peer, in order. */
    method Push(peers: seq<Peer>) returns (ghost at: seq<nat>)
      modifies this`events
      ensures AreConnected(at, connected, peers) && PushesTo(old(events), events, peers, at)
      ensures View() == Pushed(old(View()), peers)
    {
      hide Pushed, AreConnected, PushesTo;
      at := PushedAt(View(), peers);
      NoTargets(View());
      for i := 0 to |peers|
        invariant View() == Pushed(old(View()), peers[..i])
      {
        OneMoreTarget(old(View()), peers, i);
        if peers[i] in connected {
          events := events + [NotifyHandler(peers[i], Any, H.PushNow)];
        }
      }
      assert peers[..|peers|] == peers;
    }

    method OnHandlerEvent(p: Peer, report: H.Event<I, P>)
      modifies this`events
      ensures events == old(events) + [Generate(p, report)]
    {
      events := events + [Generate(p, report)];
    }

    /** Yields queued events first in, first out. */
    method Poll() returns (e: Option<ToSwarm<I, P>>)
      modifies this`events
      ensures old(events) == [] ==> e == None && events == []
      ensures old(events) != [] ==> e.Some? && [e.value] + events == old(events)
    {
      if |events| == 0 {
        return None;
      }
      e := Some(events[0]);
      events := events[1..];
    }
  }
}
