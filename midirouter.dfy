/**
 * The routing core of the daemon: the registry of peers, the graph of which
 * peer's output is forwarded to which others, and dispatch between peers.
 *
 * `RouterState` and the functions over it (`Added`, `Removed`, `Connected`,
 * `SentTo`, `Broadcast`) say what each router operation does to the whole
 * state; the class `Router` performs the same operations in place and is
 * proved against them.
 */
module MidiRouter {

  /** The registry record of one peer: its id and the ids its packets are forwarded to, in order. */
  datatype PeerConnection = PeerConnection(id: nat, sendTo: seq<nat>)

  /** One call of a peer's own `send_midi`: peer `to` is handed `data` as coming from peer `from`. */
  datatype Delivery<D> = Delivery(to: nat, from: nat, data: D)

  /**
   * What the router changes. `packetsSent` and `packetsRecv` are the packet
   * counters of the peer objects, by id, counted from the peer's registration;
   * they outlive the registry entry, as the peer object does. `delivered` is
   * the trace of calls of the peers' own `send_midi`, in order.
   */
  datatype RouterState<D> = RouterState(
    maxId: nat,
    peers: map<nat, PeerConnection>,
    packetsSent: map<nat, nat>,
    packetsRecv: map<nat, nat>,
    delivered: seq<Delivery<D>>)

  /**
   * The invariant every reachable state keeps: the counter never went below 1,
   * every registered id was issued and is stamped into its record, and each
   * issued id has its two counters.
   */
  ghost predicate Wellformed<D>(s: RouterState<D>)
  {
    && s.maxId >= 1
    && (forall k :: k in s.peers ==> 1 <= k < s.maxId && s.peers[k].id == k)
    && (forall k :: k in s.packetsSent <==> 1 <= k < s.maxId)
    && (forall k :: k in s.packetsRecv <==> 1 <= k < s.maxId)
  }

  /** A newly constructed router: the counter starts at 1 and nothing is registered. */
  function Init<D>(): (s: RouterState<D>)
    ensures Wellformed(s)
    ensures s.maxId == 1 && s.peers == map[] && s.delivered == []
  {
    RouterState(1, map[], map[], map[], [])
  }

  /**
   * The state after `add_peer`. The id it returns is `s.maxId` (the counter
   * is post-incremented): it is at least 1, was never issued before, and is
   * registered with an empty forwarding list; no other entry changes.
   */
  function Added<D>(s: RouterState<D>): (r: RouterState<D>)
    requires Wellformed(s)
    ensures Wellformed(r)
    ensures s.maxId >= 1 && s.maxId !in s.peers && s.maxId !in s.packetsSent
    ensures r.maxId > s.maxId
    ensures r.peers.Keys == s.peers.Keys + {s.maxId}
    ensures r.peers[s.maxId] == PeerConnection(s.maxId, [])
    ensures forall k :: k in s.peers ==> r.peers[k] == s.peers[k]
    ensures r.packetsSent[s.maxId] == 0 && r.packetsRecv[s.maxId] == 0
    ensures forall k :: k in s.packetsSent ==> r.packetsSent[k] == s.packetsSent[k]
    ensures forall k :: k in s.packetsRecv ==> r.packetsRecv[k] == s.packetsRecv[k]
    ensures r.delivered == s.delivered
  {
    var id := s.maxId;
    RouterState(id + 1, s.peers[id := PeerConnection(id, [])],
                s.packetsSent[id := 0], s.packetsRecv[id := 0], s.delivered)
  }

  /**
   * The state after `remove_peer(id)`: exactly that key leaves the registry;
   * an unknown id changes nothing. Counters and forwarding lists are kept.
   */
  function Removed<D>(s: RouterState<D>, id: nat): (r: RouterState<D>)
    requires Wellformed(s)
    ensures Wellformed(r)
    ensures r.peers.Keys == s.peers.Keys - {id}
    ensures forall k :: k in r.peers ==> r.peers[k] == s.peers[k]
    ensures r.maxId == s.maxId && r.packetsSent == s.packetsSent && r.packetsRecv == s.packetsRecv
    ensures r.delivered == s.delivered
    ensures id !in s.peers ==> r == s
  {
    s.(peers := s.peers - {id})
  }

  /**
   * The state after `connect(from, to)`: when both ids are registered, `to`
   * is appended to the end of `from`'s forwarding list (a repeated call adds
   * it again); otherwise nothing changes.
   */
  function Connected<D>(s: RouterState<D>, from: nat, to: nat): (r: RouterState<D>)
    requires Wellformed(s)
    ensures Wellformed(r)
    ensures r.peers.Keys == s.peers.Keys
    ensures from in s.peers && to in s.peers ==>
      r.peers[from] == PeerConnection(from, s.peers[from].sendTo + [to])
    ensures forall k :: k in s.peers && k != from ==> r.peers[k] == s.peers[k]
    ensures r.(peers := s.peers) == s
    ensures !(from in s.peers && to in s.peers) ==> r == s
  {
    if from in s.peers && to in s.peers then
      var c := s.peers[from];
      s.(peers := s.peers[from := c.(sendTo := c.sendTo + [to])])
    else
      s
  }

  /**
   * The state after point-to-point `send_midi(from, to, data)`. With either
   * side unregistered nothing changes. Otherwise `from`'s sent counter and
   * `to`'s received counter each rise by one (both on the same peer when
   * `from == to`), and `to` is handed `data` from `from` exactly once.
   */
  function SentTo<D>(s: RouterState<D>, from: nat, to: nat, data: D): (r: RouterState<D>)
    requires Wellformed(s)
    ensures Wellformed(r)
    ensures r.maxId == s.maxId && r.peers == s.peers
    ensures !(from in s.peers && to in s.peers) ==> r == s
    ensures from in s.peers && to in s.peers ==>
      && r.delivered == s.delivered + [Delivery(to, from, data)]
      && (forall k :: k in s.packetsSent ==>
            r.packetsSent[k] == s.packetsSent[k] + (if k == from then 1 else 0))
      && (forall k :: k in s.packetsRecv ==>
            r.packetsRecv[k] == s.packetsRecv[k] + (if k == to then 1 else 0))
  {
    if to !in s.peers || from !in s.peers then
      s
    else
      s.(packetsSent := s.packetsSent[from := s.packetsSent[from] + 1],
         packetsRecv := s.packetsRecv[to := s.packetsRecv[to] + 1],
         delivered := s.delivered + [Delivery(to, from, data)])
  }

  /** The entries of `tos` that are registered in `peers`, in order, duplicates kept. */
  function Live(peers: map<nat, PeerConnection>, tos: seq<nat>): (r: seq<nat>)
    decreases |tos|
  {
    if tos == [] then []
    else (if tos[0] in peers then [tos[0]] else []) + Live(peers, tos[1..])
  }

  /** How often `k` occurs in `xs`. */
  function Count(xs: seq<nat>, k: nat): nat
    decreases |xs|
  {
    if xs == [] then 0 else (if xs[0] == k then 1 else 0) + Count(xs[1..], k)
  }

  /** One delivery of `data` from `from` to each entry of `tos`, in order. */
  function Deliveries<D>(tos: seq<nat>, from: nat, data: D): (r: seq<Delivery<D>>)
    ensures |r| == |tos|
    decreases |tos|
  {
    if tos == [] then [] else [Delivery(tos[0], from, data)] + Deliveries(tos[1..], from, data)
  }

  /** The `i`-th delivery goes to the `i`-th entry. */
  lemma {:induction false} DeliveriesAt<D>(tos: seq<nat>, from: nat, data: D, i: nat)
    requires i < |tos|
    ensures Deliveries(tos, from, data)[i] == Delivery(tos[i], from, data)
    decreases |tos|
  {
    if i > 0 {
      DeliveriesAt(tos[1..], from, data, i - 1);
    }
  }

  /** One point-to-point send from `from` to each entry of `tos`, in order. */
  function SendAll<D>(s: RouterState<D>, from: nat, tos: seq<nat>, data: D): (r: RouterState<D>)
    requires Wellformed(s)
    ensures Wellformed(r)
    ensures r.maxId == s.maxId && r.peers == s.peers
    decreases |tos|
  {
    if tos == [] then s else SendAll(SentTo(s, from, tos[0], data), from, tos[1..], data)
  }

  /** `Count` adds up over concatenation. */
  lemma {:induction false} CountAppend(xs: seq<nat>, ys: seq<nat>, k: nat)
    ensures Count(xs + ys, k) == Count(xs, k) + Count(ys, k)
    decreases |xs|
  {
    if xs == [] {
      assert xs + ys == ys;
    } else {
      assert (xs + ys)[1..] == xs[1..] + ys;
      CountAppend(xs[1..], ys, k);
    }
  }

  /** The registered entries of a non-empty list: its head, if registered, then those of its tail. */
  lemma LiveHead(peers: map<nat, PeerConnection>, tos: seq<nat>)
    requires tos != []
    ensures Live(peers, tos) == (if tos[0] in peers then [tos[0]] else []) + Live(peers, tos[1..])
  {
  }

  /** `Deliveries` distributes over concatenation. */
  lemma {:induction false} DeliveriesAppend<D>(xs: seq<nat>, ys: seq<nat>, from: nat, data: D)
    ensures Deliveries(xs + ys, from, data) == Deliveries(xs, from, data) + Deliveries(ys, from, data)
    decreases |xs|
  {
    if xs == [] {
      assert xs + ys == ys;
    } else {
      assert (xs + ys)[1..] == xs[1..] + ys;
      DeliveriesAppend(xs[1..], ys, from, data);
    }
  }

  /** Every entry kept by `Live` is registered and comes from the list. */
  lemma {:induction false} LiveMembers(peers: map<nat, PeerConnection>, tos: seq<nat>, t: nat)
    requires t in Live(peers, tos)
    ensures t in peers && t in tos
    decreases |tos|
  {
    LiveHead(peers, tos);
    if tos[0] in peers && t == tos[0] {
    } else {
      LiveMembers(peers, tos[1..], t);
    }
  }

  /** Sending to every entry of `tos` hands `data` to the registered entries only, in list order, duplicates included. */
  lemma {:induction false} SendAllDelivers<D>(s: RouterState<D>, from: nat, tos: seq<nat>, data: D)
    requires Wellformed(s) && from in s.peers
    ensures SendAll(s, from, tos, data).delivered == s.delivered + Deliveries(Live(s.peers, tos), from, data)
    decreases |tos|
  {
    if tos == [] {
      assert Deliveries(Live(s.peers, tos), from, data) == [];
    } else {
      var t := tos[0];
      var s1 := SentTo(s, from, t, data);
      SendAllDelivers(s1, from, tos[1..], data);
      LiveHead(s.peers, tos);
      var head := if t in s.peers then [t] else [];
      var rest := Live(s.peers, tos[1..]);
      DeliveriesAppend(head, rest, from, data);
      assert s1.delivered == s.delivered + Deliveries(head, from, data) by {
        if t in s.peers {
          assert Deliveries(head, from, data) == [Delivery(t, from, data)];
        } else {
          assert Deliveries(head, from, data) == [];
        }
      }
      calc {
        SendAll(s, from, tos, data).delivered;
        SendAll(s1, from, tos[1..], data).delivered;
        s1.delivered + Deliveries(rest, from, data);
        s.delivered + (Deliveries(head, from, data) + Deliveries(rest, from, data));
        s.delivered + Deliveries(Live(s.peers, tos), from, data);
      }
    }
  }

  /** Sending to every entry of `tos` raises `from`'s sent counter by the number of registered entries and no other. */
  lemma {:induction false} SendAllSentCounts<D>(s: RouterState<D>, from: nat, tos: seq<nat>, data: D, k: nat)
    requires Wellformed(s) && from in s.peers && k in s.packetsSent
    ensures SendAll(s, from, tos, data).packetsSent[k]
         == s.packetsSent[k] + (if k == from then |Live(s.peers, tos)| else 0)
    decreases |tos|
  {
    if tos != [] {
      var s1 := SentTo(s, from, tos[0], data);
      SendAllSentCounts(s1, from, tos[1..], data, k);
      LiveHead(s.peers, tos);
    }
  }

  /** Sending to every entry of `tos` raises each peer's received counter by its number of registered occurrences. */
  lemma {:induction false} SendAllRecvCounts<D>(s: RouterState<D>, from: nat, tos: seq<nat>, data: D, k: nat)
    requires Wellformed(s) && from in s.peers && k in s.packetsRecv
    ensures SendAll(s, from, tos, data).packetsRecv[k] == s.packetsRecv[k] + Count(Live(s.peers, tos), k)
    decreases |tos|
  {
    if tos != [] {
      var s1 := SentTo(s, from, tos[0], data);
      SendAllRecvCounts(s1, from, tos[1..], data, k);
      LiveHead(s.peers, tos);
      var head := if tos[0] in s.peers then [tos[0]] else [];
      CountAppend(head, Live(s.peers, tos[1..]), k);
      if head != [] {
        assert head[1..] == [];
      }
    }
  }

  /** The three effects of sending to every entry of `tos`, for every peer at once. */
  lemma SendAllEffect<D>(s: RouterState<D>, from: nat, tos: seq<nat>, data: D)
    requires Wellformed(s) && from in s.peers
    ensures var r := SendAll(s, from, tos, data);
      var live := Live(s.peers, tos);
      && r.delivered == s.delivered + Deliveries(live, from, data)
      && (forall k :: k in s.packetsSent ==>
            r.packetsSent[k] == s.packetsSent[k] + (if k == from then |live| else 0))
      && (forall k :: k in s.packetsRecv ==>
            r.packetsRecv[k] == s.packetsRecv[k] + Count(live, k))
  {
    SendAllDelivers(s, from, tos, data);
    forall k | k in s.packetsSent
      ensures SendAll(s, from, tos, data).packetsSent[k]
           == s.packetsSent[k] + (if k == from then |Live(s.peers, tos)| else 0)
    {
      SendAllSentCounts(s, from, tos, data, k);
    }
    forall k | k in s.packetsRecv
      ensures SendAll(s, from, tos, data).packetsRecv[k] == s.packetsRecv[k] + Count(Live(s.peers, tos), k)
    {
      SendAllRecvCounts(s, from, tos, data, k);
    }
  }

  /**
   * The state after broadcast `send_midi(from, data)`. An unknown `from`
   * changes nothing. Otherwise it is one point-to-point send per entry of
   * `from`'s forwarding list, in list order, duplicates included; entries
   * naming peers that are no longer registered are skipped with no effect.
   */
  function Broadcast<D>(s: RouterState<D>, from: nat, data: D): (r: RouterState<D>)
    requires Wellformed(s)
    ensures Wellformed(r)
    ensures r.maxId == s.maxId && r.peers == s.peers
    ensures from !in s.peers ==> r == s
    ensures from in s.peers ==>
      var live := Live(s.peers, s.peers[from].sendTo);
      && r.delivered == s.delivered + Deliveries(live, from, data)
      && (forall k :: k in s.packetsSent ==>
            r.packetsSent[k] == s.packetsSent[k] + (if k == from then |live| else 0))
      && (forall k :: k in s.packetsRecv ==>
            r.packetsRecv[k] == s.packetsRecv[k] + Count(live, k))
  {
    if from !in s.peers then
      s
    else
      var tos := s.peers[from].sendTo;
      SendAllEffect(s, from, tos, data);
      SendAll(s, from, tos, data)
  }

  /** `n` successive `add_peer` calls: the final state and the ids they return, in order. */
  function AddPeers<D>(s: RouterState<D>, n: nat): (r: (RouterState<D>, seq<nat>))
    requires Wellformed(s)
    ensures Wellformed(r.0)
    decreases n
  {
    if n == 0 then (s, [])
    else
      var next := AddPeers(Added(s), n - 1);
      (next.0, [s.maxId] + next.1)
  }

  /** Successive `add_peer` calls return consecutive ids, starting at the counter. */
  lemma {:induction false} AddPeersNumbering<D>(s: RouterState<D>, n: nat)
    requires Wellformed(s)
    ensures var r := AddPeers(s, n);
      && |r.1| == n
      && r.0.maxId == s.maxId + n
      && (forall k :: 0 <= k < n ==> r.1[k] == s.maxId + k)
    decreases n
  {
    if n > 0 {
      AddPeersNumbering(Added(s), n - 1);
    }
  }

  /**
   * On a new router, successive `add_peer` calls return 1, 2, 3, ...:
   * never 0, strictly increasing, so never reused.
   */
  lemma FreshRouterIds<D>(n: nat)
    ensures var ids := AddPeers(Init<D>(), n).1;
      && |ids| == n
      && (forall k :: 0 <= k < n ==> ids[k] == k + 1)
      && (forall j, k :: 0 <= j < k < n ==> 0 < ids[j] < ids[k])
  {
    AddPeersNumbering(Init<D>(), n);
  }

  /** Removing a peer twice is the same as removing it once. */
  lemma RemovePeerIdempotent<D>(s: RouterState<D>, id: nat)
    requires Wellformed(s)
    ensures Removed(Removed(s, id), id) == Removed(s, id)
  {
  }

  /** Connecting the same pair twice lists the target twice. */
  lemma ConnectTwiceDuplicates<D>(s: RouterState<D>, a: nat, b: nat)
    requires Wellformed(s) && a in s.peers && b in s.peers
    ensures Connected(Connected(s, a, b), a, b).peers[a].sendTo == s.peers[a].sendTo + [b, b]
  {
  }

  /** After two `connect(a, b)` calls on a fresh list, a broadcast from `a` delivers to `b` twice. */
  lemma DuplicateConnectDeliversTwice<D>(s: RouterState<D>, a: nat, b: nat, data: D)
    requires Wellformed(s) && a in s.peers && b in s.peers && s.peers[a].sendTo == []
    ensures var r := Broadcast(Connected(Connected(s, a, b), a, b), a, data);
      && r.delivered == s.delivered + [Delivery(b, a, data), Delivery(b, a, data)]
      && r.packetsSent[a] == s.packetsSent[a] + 2
      && r.packetsRecv[b] == s.packetsRecv[b] + 2
  {
    var c := Connected(Connected(s, a, b), a, b);
    assert c.peers[a].sendTo == [b, b];
    assert Live(c.peers, [b, b]) == [b, b] by {
      assert [b, b][1..] == [b];
      assert Live(c.peers, [b]) == [b];
    }
    assert Count([b, b], b) == 2 by {
      CountAppend([b], [b], b);
      assert [b] + [b] == [b, b];
    }
    assert Deliveries([b, b], a, data) == [Delivery(b, a, data), Delivery(b, a, data)] by {
      DeliveriesAppend([b], [b], a, data);
      assert [b] + [b] == [b, b];
    }
  }

  /**
   * A broadcast reaches only peers that are registered and listed in the
   * sender's forwarding list; in particular a `connect(a, b)` with `b`
   * unregistered changed nothing, and `b` is never reached while unregistered.
   */
  lemma BroadcastReachesOnlyListed<D>(s: RouterState<D>, from: nat, data: D, i: nat)
    requires Wellformed(s) && from in s.peers
    requires |s.delivered| <= i < |Broadcast(s, from, data).delivered|
    ensures var dv := Broadcast(s, from, data).delivered[i];
      && dv.from == from && dv.data == data
      && dv.to in s.peers && dv.to in s.peers[from].sendTo
  {
    var live := Live(s.peers, s.peers[from].sendTo);
    var j := i - |s.delivered|;
    assert Broadcast(s, from, data).delivered[i] == Deliveries(live, from, data)[j];
    DeliveriesAt(live, from, data, j);
    LiveMembers(s.peers, s.peers[from].sendTo, live[j]);
  }

  /**
   * Removing `b` does not purge it from other peers' forwarding lists; the
   * dangling entry stays and a send to it is skipped with no effect.
   */
  lemma RemovedLeavesDangling<D>(s: RouterState<D>, a: nat, b: nat, data: D)
    requires Wellformed(s) && a in s.peers && a != b && b in s.peers[a].sendTo
    ensures var r := Removed(s, b);
      && r.peers[a].sendTo == s.peers[a].sendTo
      && b in r.peers[a].sendTo
      && SentTo(r, a, b, data) == r
  {
  }

  /**
   * Register three peers (ids 1, 2, 3), connect 1 to 2 and 1 to 3, broadcast
   * from 1: the event reaches peer 2 and then peer 3, each once, and peer 1
   * has sent two packets.
   */
  lemma ThreePeerScenario<D>(evt: D)
    ensures var s1 := Added(Added(Added(Init<D>())));
      var s2 := Connected(Connected(s1, 1, 2), 1, 3);
      var r := Broadcast(s2, 1, evt);
      && r.delivered == [Delivery(2, 1, evt), Delivery(3, 1, evt)]
      && r.packetsSent[1] == 2 && r.packetsRecv[2] == 1 && r.packetsRecv[3] == 1
      && r.packetsRecv[1] == 0 && r.packetsSent[2] == 0 && r.packetsSent[3] == 0
  {
    ThreePeerSetup<D>();
    var s2 := Connected(Connected(Added(Added(Added(Init<D>()))), 1, 2), 1, 3);
    BroadcastToTwo(s2, evt);
  }

  /** Peer 1 broadcasting to peers 2 and 3 of an otherwise idle registry. */
  lemma BroadcastToTwo<D>(s: RouterState<D>, evt: D)
    requires Wellformed(s) && s.peers.Keys == {1, 2, 3} && s.peers[1].sendTo == [2, 3] && s.delivered == []
    requires s.packetsSent[1] == 0 && s.packetsSent[2] == 0 && s.packetsSent[3] == 0
    requires s.packetsRecv[1] == 0 && s.packetsRecv[2] == 0 && s.packetsRecv[3] == 0
    ensures var r := Broadcast(s, 1, evt);
      && r.delivered == [Delivery(2, 1, evt), Delivery(3, 1, evt)]
      && r.packetsSent[1] == 2 && r.packetsRecv[2] == 1 && r.packetsRecv[3] == 1
      && r.packetsRecv[1] == 0 && r.packetsSent[2] == 0 && r.packetsSent[3] == 0
  {
    assert Live(s.peers, [2, 3]) == [2, 3] by {
      assert [2, 3][1..] == [3];
      assert Live(s.peers, [3]) == [3];
    }
    assert Count([2, 3], 1) == 0 && Count([2, 3], 2) == 1 && Count([2, 3], 3) == 1 by {
      assert [2, 3][1..] == [3];
    }
  }

  /** The registry of that scenario before the broadcast. */
  lemma ThreePeerSetup<D>()
    ensures var s2 := Connected(Connected(Added(Added(Added(Init<D>()))), 1, 2), 1, 3);
      && Wellformed(s2) && s2.peers.Keys == {1, 2, 3} && s2.peers[1].sendTo == [2, 3] && s2.delivered == []
      && s2.packetsSent[1] == 0 && s2.packetsSent[2] == 0 && s2.packetsSent[3] == 0
      && s2.packetsRecv[1] == 0 && s2.packetsRecv[2] == 0 && s2.packetsRecv[3] == 0
  {
    var s1 := Added(Added(Added(Init<D>())));
    assert s1.peers.Keys == {1, 2, 3};
  }

  /** The router object: its id counter, its registry and the peers' counters and deliveries. */
  class Router<D> {
    var maxId: nat
    var peers: map<nat, PeerConnection>
    var packetsSent: map<nat, nat>
    var packetsRecv: map<nat, nat>
    var delivered: seq<Delivery<D>>

    /** The router's fields as one value. */
    function State(): RouterState<D>
      reads this
    {
      RouterState(maxId, peers, packetsSent, packetsRecv, delivered)
    }

    ghost predicate Valid()
      reads this
    {
      Wellformed(State())
    }

    /** `midirouter_t()`: the id counter starts at 1, nothing is registered. */
    constructor ()
      ensures Valid() && State() == Init()
      ensures maxId == 1 && peers == map[] && delivered == []
    {
      maxId := 1;
      peers := map[];
      packetsSent := map[];
      packetsRecv := map[];
      delivered := [];
    }

    /** `add_peer`: registers a peer under the next id and returns that id. */
    method AddPeer() returns (peerId: nat)
      requires Valid()
      modifies this
      ensures Valid() && State() == Added(old(State()))
      ensures peerId == old(maxId) && peerId >= 1 && maxId == peerId + 1
      ensures peerId !in old(peers) && peerId !in old(packetsSent)
      ensures peers == old(peers)[peerId := PeerConnection(peerId, [])]
    {
      peerId := maxId;
      maxId := maxId + 1;
      peers := peers[peerId := PeerConnection(peerId, [])];
      packetsSent := packetsSent[peerId := 0];
      packetsRecv := packetsRecv[peerId := 0];
    }

    /** `remove_peer`: erases the entry for `peerId`, if there is one. */
    method RemovePeer(peerId: nat)
      requires Valid()
      modifies this
      ensures Valid() && State() == Removed(old(State()), peerId)
      ensures peers == old(peers) - {peerId}
    {
      peers := peers - {peerId};
    }

    /** `connect`: appends `to` to `from`'s forwarding list when both are registered. */
    method Connect(from: nat, to: nat)
      requires Valid()
      modifies this
      ensures Valid() && State() == Connected(old(State()), from, to)
    {
      if from !in peers {
        return;
      }
      if to !in peers {
        return;
      }
      var c := peers[from];
      peers := peers[from := c.(sendTo := c.sendTo + [to])];
    }

    /** Point-to-point `send_midi(from, to, data)`. */
    method SendMidiTo(from: nat, to: nat, data: D)
      requires Valid()
      modifies this
      ensures Valid() && State() == SentTo(old(State()), from, to, data)
    {
      if to !in peers {
        return;
      }
      if from !in peers {
        return;
      }
      packetsSent := packetsSent[from := packetsSent[from] + 1];
      packetsRecv := packetsRecv[to := packetsRecv[to] + 1];
      delivered := delivered + [Delivery(to, from, data)];
    }

    /** Broadcast `send_midi(from, data)`: one point-to-point send per forwarding entry, in order. */
    method SendMidi(from: nat, data: D)
      requires Valid()
      modifies this
      ensures Valid() && State() == Broadcast(old(State()), from, data)
    {
      if from !in peers {
        return;
      }
      var sendTo := peers[from].sendTo;
      var i := 0;
      while i < |sendTo|
        invariant 0 <= i <= |sendTo|
        invariant Valid()
        invariant SendAll(State(), from, sendTo[i..], data) == Broadcast(old(State()), from, data)
      {
        assert sendTo[i..][1..] == sendTo[i + 1..];
        SendMidiTo(from, sendTo[i], data);
        i := i + 1;
      }
    }
  }
}
