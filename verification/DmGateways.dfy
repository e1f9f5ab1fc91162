/** Gateways into direct-mode areas, and the route index derived from what they report. */
module DmGateways {
  import opened Wrappers
  import opened Tdma

  datatype Address = Address(ssi: nat, mcc: Option<nat>, mnc: Option<nat>)

  datatype Session = Session(carrier: Option<nat>, addresses: set<Address>, lastSeen: TdmaTime)

  // The addresses some gateway serves.
  function Served(gateways: map<nat, Session>): set<Address> {
    set g, a | g in gateways && a in gateways[g].addresses :: a
  }

  function GatewaysOf(gateways: map<nat, Session>, a: Address): set<nat> {
    set g | g in gateways && a in gateways[g].addresses
  }

  /** The index that belongs to the sessions: each served address, with exactly its gateways. */
  function IndexOf(gateways: map<nat, Session>): map<Address, set<nat>> {
    map a | a in Served(gateways) :: GatewaysOf(gateways, a)
  }

  predicate Lists(routes: map<Address, set<nat>>, a: Address, g: nat) {
    a in routes && g in routes[a]
  }

  predicate Serves(gateways: map<nat, Session>, a: Address, g: nat) {
    g in gateways && a in gateways[g].addresses
  }

  // The index with `gateway` listed at the addresses `add` and unlisted at `drop`.
  ghost predicate Moved(before: map<Address, set<nat>>, after: map<Address, set<nat>>, gateway: nat, add: set<Address>,
                        drop: set<Address>) {
    forall a: Address, g: nat ::
      Lists(after, a, g) <==>
        if g == gateway && a in add then true
        else if g == gateway && a in drop then false
        else Lists(before, a, g)
  }

  ghost predicate NoneEmpty(routes: map<Address, set<nat>>) {
    forall a <- routes :: routes[a] != {}
  }

  lemma IndexLists(gateways: map<nat, Session>)
    ensures NoneEmpty(IndexOf(gateways))
    ensures forall a: Address, g: nat :: Lists(IndexOf(gateways), a, g) <==> Serves(gateways, a, g)
  {
    forall a <- IndexOf(gateways)
      ensures IndexOf(gateways)[a] != {}
    {
      var g :| g in gateways && a in gateways[g].addresses;
      assert g in IndexOf(gateways)[a];
    }
  }

  /** An index is the sessions' own exactly when it lists the same pairs and no empty set. */
  lemma IndexIsUnique(routes: map<Address, set<nat>>, gateways: map<nat, Session>)
    requires NoneEmpty(routes)
    requires forall a: Address, g: nat :: Lists(routes, a, g) <==> Serves(gateways, a, g)
    ensures routes == IndexOf(gateways)
  {
    forall a: Address
      ensures a in routes <==> a in Served(gateways)
    {
      if a in routes {
        var g :| g in routes[a];
        assert Lists(routes, a, g) && Serves(gateways, a, g);
      }
      if a in Served(gateways) {
        var g :| g in gateways && a in gateways[g].addresses;
        assert Serves(gateways, a, g) && Lists(routes, a, g);
      }
    }
    forall a | a in routes
      ensures routes[a] == IndexOf(gateways)[a]
    {
      forall g: nat
        ensures g in routes[a] <==> g in GatewaysOf(gateways, a)
      {
        assert Lists(routes, a, g) <==> Serves(gateways, a, g);
      }
    }
  }

  // One address gives up, or gains, a gateway; no empty set is kept.
  function Unlisted(routes: map<Address, set<nat>>, a: Address, gateway: nat): map<Address, set<nat>> {
    if a !in routes then routes
    else if routes[a] - {gateway} == {} then routes - {a}
    else routes[a := routes[a] - {gateway}]
  }

  function Listed(routes: map<Address, set<nat>>, a: Address, gateway: nat): map<Address, set<nat>> {
    routes[a := (if a in routes then routes[a] else {}) + {gateway}]
  }

  lemma UnlistedOneMore(before: map<Address, set<nat>>, routes: map<Address, set<nat>>, a: Address, gateway: nat,
                        done: set<Address>)
    requires NoneEmpty(routes) && Moved(before, routes, gateway, {}, done)
    ensures NoneEmpty(Unlisted(routes, a, gateway))
            && Moved(before, Unlisted(routes, a, gateway), gateway, {}, done + {a})
  {
    forall b: Address, g: nat
      ensures Lists(Unlisted(routes, a, gateway), b, g) <==> Lists(routes, b, g) && !(b == a && g == gateway)
    {
      if b == a && a in routes && routes[a] - {gateway} == {} && g in routes[a] {
        assert g in routes[a] - {gateway} <==> g != gateway;
      }
    }
  }

  lemma NothingMoved(routes: map<Address, set<nat>>, gateway: nat)
    ensures Moved(routes, routes, gateway, {}, {})
  {
  }

  lemma ListedOneMore(before: map<Address, set<nat>>, routes: map<Address, set<nat>>, a: Address, gateway: nat,
                      done: set<Address>)
    requires NoneEmpty(routes) && Moved(before, routes, gateway, done, {})
    ensures NoneEmpty(Listed(routes, a, gateway)) && Moved(before, Listed(routes, a, gateway), gateway, done + {a}, {})
  {
    assert gateway in Listed(routes, a, gateway)[a];
    forall b: Address, g: nat
      ensures Lists(Listed(routes, a, gateway), b, g) <==> Lists(routes, b, g) || (b == a && g == gateway)
    {
    }
  }

  class DmGatewayRegistry {
    var gateways: map<nat, Session>
    var routes: map<Address, set<nat>>

    /** A gateway is routed to for an address exactly when it is active and reports it. */
    ghost predicate Valid()
      reads this
    {
      routes == IndexOf(gateways)
    }

    constructor ()
      ensures Valid() && gateways == map[]
    {
      gateways, routes := map[], map[];
    }

    method Unlist(gateway: nat, addresses: set<Address>)
      requires NoneEmpty(routes)
      modifies this`routes
      ensures NoneEmpty(routes) && Moved(old(routes), routes, gateway, {}, addresses)
    {
      hide Moved, NoneEmpty;
      NothingMoved(routes, gateway);
      var todo := addresses;
      assert addresses - todo == {};
      while todo != {}
        invariant todo <= addresses && NoneEmpty(routes) && Moved(old(routes), routes, gateway, {}, addresses - todo)
        decreases |todo|
      {
        var a :| a in todo;
        UnlistedOneMore(old(routes), routes, a, gateway, addresses - todo);
        assert addresses - todo + {a} == addresses - (todo - {a});
        todo := todo - {a};
        if a in routes {
          var left := routes[a] - {gateway};
          routes := if left == {} then routes - {a} else routes[a := left];
        }
      }
      assert addresses - todo == addresses;
    }

    method List(gateway: nat, addresses: set<Address>)
      requires NoneEmpty(routes)
      modifies this`routes
      ensures NoneEmpty(routes) && Moved(old(routes), routes, gateway, addresses, {})
    {
      hide Moved, NoneEmpty;
      NothingMoved(routes, gateway);
      var todo := addresses;
      assert addresses - todo == {};
      while todo != {}
        invariant todo <= addresses && NoneEmpty(routes) && Moved(old(routes), routes, gateway, addresses - todo, {})
        decreases |todo|
      {
        var a :| a in todo;
        ListedOneMore(old(routes), routes, a, gateway, addresses - todo);
        assert addresses - todo + {a} == addresses - (todo - {a});
        todo := todo - {a};
        routes := routes[a := (if a in routes then routes[a] else {}) + {gateway}];
      }
      assert addresses - todo == addresses;
    }

    method Deactivate(gateway: nat)
      requires Valid()
      modifies this
      ensures Valid() && gateways == old(gateways) - {gateway}
    {
      IndexLists(gateways);
      if gateway !in gateways {
        assert gateways - {gateway} == gateways;
        return;
      }
      var session := gateways[gateway];
      gateways := gateways - {gateway};
      Unlist(gateway, session.addresses);
      IndexIsUnique(routes, gateways);
    }

    method Activate(gateway: nat, carrier: Option<nat>, addresses: set<Address>, now: TdmaTime)
      requires Valid()
      modifies this
      ensures Valid() && gateways == old(gateways)[gateway := Session(carrier, addresses, now)]
    {
      Deactivate(gateway);
      IndexLists(gateways);
      List(gateway, addresses);
      gateways := gateways[gateway := Session(carrier, addresses, now)];
      IndexIsUnique(routes, gateways);
    }

    method AddAddresses(gateway: nat, addresses: set<Address>, now: TdmaTime)
      requires Valid()
      modifies this
      ensures Valid()
      ensures gateways == if gateway in old(gateways) then
                            old(gateways)[gateway := old(gateways)[gateway].(
                              lastSeen := now, addresses := old(gateways)[gateway].addresses + addresses)]
                          else old(gateways)
    {
      if gateway !in gateways {
        return;
      }
      IndexLists(gateways);
      List(gateway, addresses);
      gateways := gateways[gateway := gateways[gateway].(
        lastSeen := now, addresses := gateways[gateway].addresses + addresses)];
      IndexIsUnique(routes, gateways);
    }

    method RemoveAddresses(gateway: nat, addresses: set<Address>, now: TdmaTime)
      requires Valid()
      modifies this
      ensures Valid()
      ensures gateways == if gateway in old(gateways) then
                            old(gateways)[gateway := old(gateways)[gateway].(
                              lastSeen := now, addresses := old(gateways)[gateway].addresses - addresses)]
                          else old(gateways)
    {
      if gateway !in gateways {
        return;
      }
      IndexLists(gateways);
      Unlist(gateway, addresses);
      gateways := gateways[gateway := gateways[gateway].(
        lastSeen := now, addresses := gateways[gateway].addresses - addresses)];
      IndexIsUnique(routes, gateways);
    }

    method ReplaceAddresses(gateway: nat, addresses: set<Address>, now: TdmaTime)
      requires Valid()
      modifies this
      ensures Valid()
      ensures gateways == old(gateways)[gateway :=
                            Session(if gateway in old(gateways) then old(gateways)[gateway].carrier else None,
                                    addresses, now)]
    {
      var carrier := if gateway in gateways then gateways[gateway].carrier else None;
      Activate(gateway, carrier, addresses, now);
    }
  }
}
