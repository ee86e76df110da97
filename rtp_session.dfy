/**
 * The peer registry of `RTPMidi`: connections are registered under a random
 * local id and re-keyed to the remote SSRC once the remote side answers.
 */
module RtpSession {

  /**
   * `peers[peer] = peers[initiator]; del peers[initiator]`, for a registered
   * initiator. When both ids coincide the assignment is a no-op and the
   * deletion removes the entry.
   */
  function Rekeyed<C>(m: map<int, C>, initiator: int, peer: int): (r: map<int, C>)
    requires initiator in m
    ensures initiator !in r
    ensures initiator != peer ==> peer in r && r[peer] == m[initiator]
    ensures forall k :: k != initiator && k != peer ==> (k in r <==> k in m)
    ensures forall k :: k in r && k != peer ==> r[k] == m[k]
  {
    m[peer := m[initiator]] - {initiator}
  }

  /** With distinct ids, exactly the key changes: the key set trades the initiator for the peer. */
  lemma RekeyMoves<C>(m: map<int, C>, initiator: int, peer: int)
    requires initiator in m && initiator != peer
    ensures Rekeyed(m, initiator, peer).Keys == m.Keys - {initiator} + {peer}
    ensures |Rekeyed(m, initiator, peer)| == if peer in m then |m| - 1 else |m|
  {
    var r := Rekeyed(m, initiator, peer);
    assert r.Keys == m.Keys - {initiator} + {peer};
    if peer in m {
      assert m.Keys - {initiator} + {peer} == m.Keys - {initiator};
    } else {
      assert |m.Keys - {initiator}| == |m.Keys| - 1;
    }
  }

  /** Re-keying an id to itself drops the connection from the registry. */
  lemma RekeySelfDrops<C>(m: map<int, C>, id: int)
    requires id in m
    ensures Rekeyed(m, id, id) == m - {id}
  {
  }

  /** Re-keying to a fresh id and back restores the registry. */
  lemma RekeyBack<C>(m: map<int, C>, initiator: int, peer: int)
    requires initiator in m && peer !in m
    ensures Rekeyed(Rekeyed(m, initiator, peer), peer, initiator) == m
  {
    var back := Rekeyed(Rekeyed(m, initiator, peer), peer, initiator);
    assert back.Keys == m.Keys;
  }

  /** The `peers` dictionary of `RTPMidi`, over connection values of type C. */
  class RtpMidi<C> {
    var peers: map<int, C>

    /** `RTPMidi()` starts with no peers (its sockets are not part of this model). */
    constructor ()
      ensures peers == map[]
    {
      peers := map[];
    }

    /** `connect_to`: the new connection is stored under its random local id. */
    method ConnectTo(id: int, connection: C)
      modifies this
      ensures peers == old(peers)[id := connection]
    {
      peers := peers[id := connection];
    }

    /**
     * `initiator_is_peer(initiator, peer)`: reading `peers[initiator]` raises
     * `KeyError`, leaving the registry as it was, when the initiator is not
     * registered.
     */
    method InitiatorIsPeer(initiator: int, peer: int) returns (raised: bool)
      modifies this
      ensures raised <==> initiator !in old(peers)
      ensures raised ==> peers == old(peers)
      ensures !raised ==> peers == Rekeyed(old(peers), initiator, peer)
    {
      if initiator !in peers {
        return true;
      }
      peers := peers[peer := peers[initiator]];
      peers := peers - {initiator};
      raised := false;
    }
  }
}

/** `maybe_wrap`: turning an optional file descriptor or a list of them into something iterable. */
module Iterables {

  /** The Python values `maybe_wrap` distinguishes. */
  datatype PyValue<T> = PyNone | PyList(items: seq<T>) | PyTuple(items: seq<T>) | Scalar(value: T)

  /** The elements a `for` loop over an iterable visits. */
  function Elements<T>(v: PyValue<T>): seq<T>
    requires v.PyList? || v.PyTuple?
  {
    v.items
  }

  /**
   * `maybe_wrap(v)`: `None` becomes the empty tuple, a list or tuple is
   * returned as it is, and anything else becomes a one-element tuple.
   */
  function MaybeWrap<T>(v: PyValue<T>): (r: PyValue<T>)
    ensures r.PyList? || r.PyTuple?
    ensures v.PyNone? ==> Elements(r) == []
    ensures v.PyList? || v.PyTuple? ==> r == v
    ensures v.Scalar? ==> Elements(r) == [v.value]
  {
    match v
    case PyNone => PyTuple([])
    case PyList(_) => v
    case PyTuple(_) => v
    case Scalar(x) => PyTuple([x])
  }

  /** Wrapping what `maybe_wrap` returned changes nothing. */
  lemma MaybeWrapIdempotent<T>(v: PyValue<T>)
    ensures MaybeWrap(MaybeWrap(v)) == MaybeWrap(v)
  {
  }
}
