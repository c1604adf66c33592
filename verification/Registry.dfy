/** `uring_navite_t` and `util_loop_register`: register ids and the callback map, updated in place.
    The panic guards of the helpers are their preconditions. */
module Registry {
  import opened Words
  import Tags

  datatype Found = NoCallback | Callback(cb: nat)

  /** The loop's lookup of a completion's callback. */
  function Lookup(reg: map<nat, nat>, tag: nat): Found {
    var rid := Tags.Parse(tag).0;
    if rid in reg then Callback(reg[rid]) else NoCallback
  }

  /** The counter and the map after make_register_id and register_event_cb, and the map after
      unregister_event_cb. */
  function Registered(next: nat, reg: map<nat, nat>, cb: nat): (nat, map<nat, nat>) {
    (next + 1, reg[next + 1 := cb])
  }

  function Unregistered(reg: map<nat, nat>, id: nat): map<nat, nat> {
    reg - {id}
  }

  /** A socket's register id, 0 while it has none. */
  class FdNative {
    var registerId: nat

    constructor ()
      ensures registerId == 0
    {
      registerId := 0;
    }
  }

  class UringNative {
    var registerIdReq: nat
    var registerCb: map<nat, nat>

    /** Ids count up and are never reused, so no callback sits above the counter. */
    ghost predicate Valid()
      reads this
    {
      registerIdReq < TWO64 && forall r :: r in registerCb ==> 0 < r <= registerIdReq
    }

    constructor ()
      ensures Valid() && registerIdReq == 0 && registerCb == map[]
    {
      registerIdReq, registerCb := 0, map[];
    }

    method MakeRegisterId() returns (r: nat)
      requires Valid() && registerIdReq + 1 < TWO64
      modifies this`registerIdReq
      ensures Valid() && r == registerIdReq == old(registerIdReq) + 1 && r !in registerCb
    {
      registerIdReq := registerIdReq + 1;
      r := registerIdReq;
    }

    method RegisterEventCb(id: nat, cb: nat)
      requires Valid() && 0 < id <= registerIdReq
      modifies this`registerCb
      ensures Valid() && registerCb == old(registerCb)[id := cb]
    {
      registerCb := registerCb[id := cb];
    }

    method UnregisterEventCb(id: nat)
      requires Valid()
      modifies this`registerCb
      ensures Valid() && registerCb == Unregistered(old(registerCb), id)
    {
      registerCb := registerCb - {id};
    }

    /** Every completion tagged for the socket now finds `cb`; everybody else's finds what it found. */
    method RegisterLoopCb(ns: FdNative, cb: nat)
      requires Valid() && ns.registerId == 0 && registerIdReq + 1 < TWO64
      modifies this, ns
      ensures Valid() && ns.registerId == registerIdReq
      ensures (registerIdReq, registerCb) == Registered(old(registerIdReq), old(registerCb), cb)
      ensures forall ev :: 0 <= ev <= 7 ==> Lookup(registerCb, Tags.Pack(ns.registerId, ev)) == Callback(cb)
      ensures forall id: nat, ev: nat :: ev <= 7 && id != ns.registerId ==>
                Lookup(registerCb, Tags.Pack(id, ev)) == Lookup(old(registerCb), Tags.Pack(id, ev))
    {
      var id := MakeRegisterId();
      ns.registerId := id;
      RegisterEventCb(id, cb);
      PackFinds();
    }

    /** No completion of the socket finds a callback any more, those already tagged included. */
    method UnregisterLoop(ns: FdNative)
      requires Valid() && ns.registerId != 0
      modifies this`registerCb, ns
      ensures Valid() && ns.registerId == 0
      ensures registerCb == Unregistered(old(registerCb), old(ns.registerId))
      ensures forall ev :: 0 <= ev <= 7 ==> Lookup(registerCb, Tags.Pack(old(ns.registerId), ev)) == NoCallback
      ensures forall id: nat, ev: nat :: ev <= 7 && id != old(ns.registerId) ==>
                Lookup(registerCb, Tags.Pack(id, ev)) == Lookup(old(registerCb), Tags.Pack(id, ev))
    {
      UnregisterEventCb(ns.registerId);
      ns.registerId := 0;
      PackFinds();
    }
  }

  lemma PackFinds()
    ensures forall id: nat, ev: nat :: ev <= 7 ==> Tags.Parse(Tags.Pack(id, ev)) == (id, ev)
  {
    forall id: nat, ev: nat | ev <= 7
      ensures Tags.Parse(Tags.Pack(id, ev)) == (id, ev)
    {
      Tags.ParseOfPack(id, ev);
    }
  }
}
