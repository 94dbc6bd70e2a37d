/**
 The placement store: nodes alive while they beat, leases that cascade away with
 their holder, and per-object epochs that never reset. One clock is passed in; a
 node or lease id that does not parse is `None`.
 */
module Registry {
  import opened Prelude

  type NodeId = nat
  type ObjectId = string

  datatype Tables = Tables(
    nodes: map<NodeId, int>,          // last heartbeat
    leases: map<ObjectId, NodeId>,
    epochs: map<ObjectId, nat>,
    nextNode: NodeId)                 // ids are never reused

  datatype Lease = Lease(objectId: ObjectId, node: NodeId, acquired: bool, epoch: nat)

  datatype RegistryError = InvalidId | StoreFailed | NodeUnknown | Unheld

  const EMPTY := Tables(map[], map[], map[], 0)

  predicate Live(ttl: nat, r: Tables, n: NodeId, now: int) {
    n in r.nodes && r.nodes[n] > now - ttl
  }

  /** Every lease names a registered node and its object has an epoch row of at least 1. */
  ghost predicate TablesValid(r: Tables) {
    && (forall o | o in r.leases :: r.leases[o] in r.nodes && o in r.epochs)
    && (forall o | o in r.epochs :: r.epochs[o] >= 1)
    && (forall n | n in r.nodes :: n < r.nextNode)
  }

  /** Deleting nodes deletes the leases they hold; epochs stay. */
  function WithoutNodes(r: Tables, gone: set<NodeId>): Tables {
    r.(nodes := r.nodes - gone, leases := map o | o in r.leases && r.leases[o] !in gone :: r.leases[o])
  }

  function Dead(ttl: nat, r: Tables, now: int): set<NodeId> {
    set n | n in r.nodes && r.nodes[n] <= now - ttl
  }

  function Reaped(ttl: nat, r: Tables, now: int): Tables {
    WithoutNodes(r, Dead(ttl, r, now))
  }

  /** The epoch a lease reads when nothing is bumped. */
  function EpochOf(r: Tables, o: ObjectId): nat {
    if o in r.epochs && r.epochs[o] >= 1 then r.epochs[o] else 1
  }

  function Claimed(ttl: nat, r: Tables, o: ObjectId, node: Option<NodeId>, now: int):
    (Tables, Result<Lease, RegistryError>)
  {
    if node.None? then (r, Failure(InvalidId))
    else
      var n := node.value;
      var r1 := Reaped(ttl, r, now);
      if o in r1.leases then
        (r1, Success(Lease(o, r1.leases[o], r1.leases[o] == n, EpochOf(r1, o))))
      else if n !in r1.nodes then
        (r1, Failure(StoreFailed)) // the foreign key refuses the row
      else
        var epoch := if o in r1.epochs then r1.epochs[o] + 1 else 1;
        (r1.(leases := r1.leases[o := n], epochs := r1.epochs[o := epoch]), Success(Lease(o, n, true, epoch)))
  }

  function Beaten(ttl: nat, r: Tables, n: NodeId, now: int): Tables {
    if Live(ttl, r, n, now) then r.(nodes := r.nodes[n := now]) else r
  }

  function Released(r: Tables, o: ObjectId, n: NodeId): Tables {
    if o in r.leases && r.leases[o] == n then r.(leases := r.leases - {o}) else r
  }

  /** The cadence a registering node is told to beat at. */
  function HeartbeatInterval(ttl: nat): nat {
    if ttl / 3 < 1 then 1 else ttl / 3
  }

  class NodeRegistry {
    const ttl: nat
    var nodes: map<NodeId, int>
    var leases: map<ObjectId, NodeId>
    var epochs: map<ObjectId, nat>
    var nextNode: NodeId

    ghost function View(): Tables
      reads this
    {
      Tables(nodes, leases, epochs, nextNode)
    }

    ghost predicate Valid()
      reads this
    {
      TablesValid(View())
    }

    constructor (ttl: nat)
      ensures Valid() && this.ttl == ttl && View() == EMPTY
    {
      this.ttl := ttl;
      nodes, leases, epochs, nextNode := map[], map[], map[], 0;
    }

    method Register(now: int) returns (id: NodeId, interval: nat)
      requires Valid()
      modifies this
      ensures Valid() && id == old(nextNode) && interval == HeartbeatInterval(ttl)
      ensures View() == old(View()).(nodes := old(nodes)[id := now], nextNode := id + 1)
    {
      id := nextNode;
      nodes := nodes[id := now];
      nextNode := nextNode + 1;
      interval := HeartbeatInterval(ttl);
    }

    /** The conditional update: only a row still inside the ttl accepts the beat. */
    method Heartbeat(node: Option<NodeId>, now: int) returns (r: Result<(), RegistryError>)
      requires Valid()
      modifies this
      ensures Valid()
      ensures r.Success? <==> node.Some? && Live(ttl, old(View()), node.value, now)
      ensures node.None? ==> r == Failure(InvalidId)
      ensures node.Some? && r.Failure? ==> r == Failure(NodeUnknown)
      ensures View() == if node.Some? then Beaten(ttl, old(View()), node.value, now) else old(View())
    {
      if node.None? {
        return Failure(InvalidId);
      }
      if node.value in nodes && nodes[node.value] > now - ttl {
        nodes := nodes[node.value := now];
        return Success(());
      }
      return Failure(NodeUnknown);
    }

    method DeleteNodes(gone: set<NodeId>)
      requires Valid()
      modifies this
      ensures Valid() && View() == WithoutNodes(old(View()), gone)
    {
      nodes := nodes - gone;
      leases := map o | o in leases && leases[o] !in gone :: leases[o];
    }

    method Reap(now: int)
      requires Valid()
      modifies this
      ensures Valid() && View() == Reaped(ttl, old(View()), now)
      ensures forall n | n in nodes :: Live(ttl, View(), n, now)
    {
      DeleteNodes(set n | n in nodes && nodes[n] <= now - ttl);
    }

    method Deregister(node: Option<NodeId>) returns (r: Result<(), RegistryError>)
      requires Valid()
      modifies this
      ensures Valid() && r.Success? == node.Some?
      ensures View() == if node.Some? then WithoutNodes(old(View()), {node.value}) else old(View())
    {
      if node.None? {
        return Failure(InvalidId);
      }
      DeleteNodes({node.value});
      return Success(());
    }

    method ReleaseLease(o: ObjectId, node: Option<NodeId>) returns (r: Result<(), RegistryError>)
      requires Valid()
      modifies this
      ensures Valid() && r.Success? == node.Some?
      ensures View() == if node.Some? then Released(old(View()), o, node.value) else old(View())
    {
      if node.None? {
        return Failure(InvalidId);
      }
      if o in leases && leases[o] == node.value {
        leases := leases - {o};
      }
      return Success(());
    }

    method GetLease(o: ObjectId, now: int) returns (r: Result<Lease, RegistryError>)
      requires Valid()
      modifies this
      ensures Valid() && View() == Reaped(ttl, old(View()), now)
      ensures r == if o in leases then Success(Lease(o, leases[o], false, epochs[o])) else Failure(Unheld)
      ensures r.Success? ==> Live(ttl, View(), r.value.node, now)
    {
      Reap(now);
      if o !in leases {
        return Failure(Unheld);
      }
      return Success(Lease(o, leases[o], false, EpochOf(Tables(nodes, leases, epochs, nextNode), o)));
    }

    /** Reap, insert unless someone holds it, read the holder, then bump or read the epoch. */
    method Claim(o: ObjectId, node: Option<NodeId>, now: int) returns (r: Result<Lease, RegistryError>)
      requires Valid()
      modifies this
      ensures Valid() && (View(), r) == Claimed(ttl, old(View()), o, node, now)
      ensures r.Success? && r.value.acquired ==> node == Some(r.value.node) && Live(ttl, View(), r.value.node, now)
      ensures r.Success? ==> o in leases && leases[o] == r.value.node && epochs[o] == r.value.epoch
    {
      if node.None? {
        return Failure(InvalidId);
      }
      Reap(now);
      var inserted := false;
      if o !in leases {
        if node.value !in nodes {
          return Failure(StoreFailed);
        }
        leases := leases[o := node.value];
        inserted := true;
      }
      var holder := leases[o];
      var epoch: nat;
      if inserted {
        epoch := if o in epochs then epochs[o] + 1 else 1;
        epochs := epochs[o := epoch];
      } else {
        epoch := if o in epochs then epochs[o] else 1;
      }
      return Success(Lease(o, holder, inserted || holder == node.value, if epoch < 1 then 1 else epoch));
    }
  }
}
