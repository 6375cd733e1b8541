// Listing and calling agree: after a root listing a listed name reaches the tool it stands
// for wherever the way it was listed by is undisturbed, as it is for all names on acyclic
// networks with fixed iteration orders. A name that is not listed is refused everywhere.
module StationAgreement {
  import opened Wrappers
  import opened StationNetwork
  import opened StationListing
  import opened StationTables

  ghost predicate Acyclic(net: Network) {
    forall p: seq<Id> {:trigger EdgeWalk(net, p)} | EdgeWalk(net, p) && |p| > 1 :: p[0] != p[|p| - 1]
  }

  // Station tools are indexed by their own name and carry their group.
  ghost predicate WellFormed(net: Network) {
    forall v, n | v in net && net[v].Station? && n in net[v].tools ::
      net[v].tools[n].name == n && net[v].tools[n].group.Some?
  }

  ghost predicate Tame(net: Network, order: Order) {
    Acyclic(net) && WellFormed(net) && ValidOrder(net, order) && FixedOrder(order)
  }

  lemma AncestorsDoNotRecur(net: Network, chain: seq<Id>, v: Id)
    requires Acyclic(net) && EdgeWalk(net, chain + [v])
    ensures v !in chain
  {
    if v in chain {
      var i :| 0 <= i < |chain| && chain[i] == v;
      WalkTail(net, chain + [v], i);
    }
  }

  // ----- a listing does not depend on the ancestors it came through -----

  lemma {:induction false} ListingIgnoresChain(net: Network, order: Order, v: Id, a: seq<Id>, b: seq<Id>)
    requires Tame(net, order) && v in net
    requires EdgeWalk(net, a + [v]) && EdgeWalk(net, b + [v])
    ensures Listing(net, order, v, a) == Listing(net, order, v, b)
    ensures net[v].Station? ==> Routes(net, order, v, a) == Routes(net, order, v, b)
    decreases Budget(net, a), 0
  {
    if net[v].Station? {
      AncestorsDoNotRecur(net, a, v);
      AncestorsDoNotRecur(net, b, v);
      BudgetDrops(net, a, v);
      assert order(v, a) == order(v, []) == order(v, b);
      GatherIgnoresChain(net, order, v, a, b, order(v, a), Gathered(net[v].tools, map[]));
    }
  }

  lemma {:induction false} GatherIgnoresChain(net: Network, order: Order, v: Id, a: seq<Id>, b: seq<Id>, todo: seq<Id>,
                                              acc: Gathered)
    requires Tame(net, order) && v in net && net[v].Station?
    requires EdgeWalk(net, a + [v]) && EdgeWalk(net, b + [v])
    ensures Gather(net, order, net[v].subs, a + [v], todo, acc) == Gather(net, order, net[v].subs, b + [v], todo, acc)
    decreases Budget(net, a + [v]), 1 + |todo|
  {
    if todo != [] {
      var c := todo[0];
      if c in net[v].subs && c in net {
        WalkAppend(net, a, v, c);
        WalkAppend(net, b, v, c);
        ListingIgnoresChain(net, order, c, a + [v], b + [v]);
      }
      GatherIgnoresChain(net, order, v, a, b, todo[1..], GatherOne(net, order, net[v].subs, a + [v], c, acc));
    }
  }

  // ----- the chains of a root listing -----

  // The routes it then stores.
  ghost function RoutesUnder(net: Network, order: Order, p: seq<Id>): map<Name, Id>
    requires |p| > 0 && Last(p) in net && net[Last(p)].Station?
  {
    Routes(net, order, Last(p), p[..|p| - 1])
  }

  // A station asked more than once stores the same routes each time.
  ghost predicate Steady(net: Network, order: Order, root: Id) {
    forall p, q | Asked(net, root, p) && Asked(net, root, q) && Last(p) == Last(q) ::
      RoutesUnder(net, order, p) == RoutesUnder(net, order, q)
  }

  lemma {:induction false} AcyclicIsSteady(net: Network, order: Order, root: Id)
    requires Tame(net, order)
    ensures Steady(net, order, root)
  {
    forall p, q | Asked(net, root, p) && Asked(net, root, q) && Last(p) == Last(q)
      ensures RoutesUnder(net, order, p) == RoutesUnder(net, order, q)
    {
      assert p[..|p| - 1] + [Last(p)] == p && q[..|q| - 1] + [Last(q)] == q;
      ListingIgnoresChain(net, order, Last(p), p[..|p| - 1], q[..|q| - 1]);
    }
  }

  // ----- the tables a listing leaves behind -----

  ghost predicate Current(net: Network, order: Order, t: Tables, p: seq<Id>)
    requires |p| > 0 && Last(p) in net && net[Last(p)].Station?
  {
    Last(p) in t && t[Last(p)] == RoutesUnder(net, order, p)
  }

  // The last station of p and all that are asked through it hold the routes they gave.
  ghost predicate Settled(net: Network, order: Order, root: Id, t: Tables, p: seq<Id>) {
    forall q | Asked(net, root, q) && p <= q :: Current(net, order, t, q)
  }

  ghost predicate Keeps(net: Network, order: Order, root: Id, t: Tables, t': Tables) {
    forall p | Asked(net, root, p) && Current(net, order, t, p) :: Current(net, order, t', p)
  }

  // Where listings are steady, the table of a station that is asked is the right one for
  // every chain, and no table that was right is spoiled.
  lemma {:induction false} ListingSettlesTables(net: Network, order: Order, root: Id, v: Id, chain: seq<Id>, t: Tables)
    requires ValidOrder(net, order) && Steady(net, order, root) && Asked(net, root, chain + [v])
    ensures Keeps(net, order, root, t, TablesAfter(net, order, v, chain, t))
    ensures Settled(net, order, root, TablesAfter(net, order, v, chain, t), chain + [v])
  {
    var t' := TablesAfter(net, order, v, chain, t);
    NotAnAncestor(net, root, chain, v);
    forall q | Asked(net, root, q) && (Current(net, order, t, q) || chain + [v] <= q)
      ensures Current(net, order, t', q)
    {
      TableIsLast(net, order, v, chain, t, Last(q));
      var last := LastAsked(net, order, v, chain, Last(q));
      if chain + [v] <= q {
        AskedHasLast(net, order, root, v, chain, q);
      }
      if last.Some? {
        LastAskedIsAsked(net, order, root, v, chain, Last(q));
        SameRoutes(net, order, root, last.value, q);
      }
    }
  }

  lemma {:induction false} SameRoutes(net: Network, order: Order, root: Id, chain: seq<Id>, q: seq<Id>)
    requires Steady(net, order, root) && Asked(net, root, q) && Asked(net, root, chain + [Last(q)])
    ensures Routes(net, order, Last(q), chain) == RoutesUnder(net, order, q)
  {
    var p := chain + [Last(q)];
    assert p[..|p| - 1] == chain && Last(p) == Last(q);
    assert RoutesUnder(net, order, p) == RoutesUnder(net, order, q);
  }

  // Where listings are steady, no way is disturbed.
  lemma {:induction false} SteadyIsUndisturbed(net: Network, order: Order, root: Id, u: Id, chain: seq<Id>, m: Name)
    requires ValidOrder(net, order) && Steady(net, order, root) && root in net && OnTheWay(net, root, u, chain)
    ensures Undisturbed(net, order, root, u, chain, m)
    decreases Budget(net, chain)
  {
    var next := Hop(net, order, u, chain, m);
    if next.Some? {
      var q := chain + [u];
      BudgetDrops(net, chain, u);
      NextIsLastHop(net, order, root, map[], u, chain, m);
      assert Last(q) == u && q[..|q| - 1] == chain;
      SameRoutes(net, order, root, LastAsked(net, order, root, [], u).value, q);
      NextOnTheWay(net, root, u, chain, next.value.station);
      SteadyIsUndisturbed(net, order, root, next.value.station, q, next.value.tool);
    }
  }

  // ----- where a listed name comes from -----

  ghost predicate Provides(net: Network, order: Order, subs: map<Id, Sub>, chain: seq<Id>, g: Gathered, x: Name) {
    x in g.routes && x in g.tools &&
    var c := g.routes[x];
    c in subs && c in net && Listing(net, order, c, chain).Ok? &&
    var m := subs[c].LocalName(x);
    m in Listing(net, order, c, chain).value && x == subs[c].GlobalName(m) &&
    g.tools[x] == Adopt(Listing(net, order, c, chain).value[m], x, c)
  }

  lemma {:induction false} GatherProvides(net: Network, order: Order, subs: map<Id, Sub>, chain: seq<Id>,
                                          todo: seq<Id>, acc: Gathered, x: Name)
    requires acc.routes.Keys <= acc.tools.Keys
    ensures var g := Gather(net, order, subs, chain, todo, acc);
      && (x in acc.tools ==> x in g.tools && g.tools[x] == acc.tools[x] && (x in g.routes <==> x in acc.routes)
                             && (x in acc.routes ==> g.routes[x] == acc.routes[x]))
      && (x !in acc.tools && x in g.tools ==> Provides(net, order, subs, chain, g, x))
      && g.routes.Keys <= g.tools.Keys
    decreases |todo|
  {
    if todo != [] {
      GatherProvides(net, order, subs, chain, todo[1..], GatherOne(net, order, subs, chain, todo[0], acc), x);
    }
  }

  // The definition under which tool r is offered as x by a station.
  function Delivered(net: Network, r: Reached, x: Name): Tool
    requires r.station in net && r.tool in NativeNames(net[r.station])
  {
    Adopt(NativeTool(net[r.station], r.tool), x, r.station)
  }

  function NativeTool(p: Peer, n: Name): Tool
    requires n in NativeNames(p)
  {
    match p
    case Station(tools, _) => tools[n]
    case Foreign(listed) => FirstOfNameNames(listed); FirstOfName(listed)[n]
  }

  // A call is the mirror of a listing: r runs, and x is its definition seen from v.
  ghost predicate CallMatches(net: Network, t: Tables, v: Id, chain: seq<Id>, listed: Tool, x: Name, p: seq<Id>,
                              r: Reached)
    requires v in net
  {
    && Call(net, t, v, x, chain) == Ok(r)
    && Offers(net, v, chain, x, p, r.tool) && p[|p| - 1] == r.station
    && (net[v].Foreign? ==> listed == NativeTool(net[v], x) && r == Reached(v, x))
    && (net[v].Station? ==> listed == Delivered(net, r, x))
  }

  lemma {:induction false} ListedIsCallable(net: Network, order: Order, root: Id, t: Tables, v: Id, chain: seq<Id>,
                                            x: Name)
    returns (p: seq<Id>, r: Reached)
    requires WellFormed(net) && ValidOrder(net, order) && root in net && OnTheWay(net, root, v, chain)
    requires Listing(net, order, v, chain).Ok? && x in Listing(net, order, v, chain).value
    requires Undisturbed(net, order, root, v, chain, x)
    ensures CallMatches(net, TablesAfter(net, order, root, [], t), v, chain, Listing(net, order, v, chain).value[x],
                        x, p, r)
    decreases Budget(net, chain)
  {
    p, r := [v], Reached(v, x);
    if net[v].Foreign? {
      FirstOfNameNames(net[v].listed);
    } else {
      var subs, chain' := net[v].subs, chain + [v];
      var g := Gather(net, order, subs, chain', order(v, chain), Gathered(net[v].tools, map[]));
      GatherProvides(net, order, subs, chain', order(v, chain), Gathered(net[v].tools, map[]), x);
      if x !in net[v].tools {
        var c, m := g.routes[x], subs[g.routes[x]].LocalName(x);
        assert Hop(net, order, v, chain, x) == Some(Reached(c, m));
        BudgetDrops(net, chain, v);
        NextOnTheWay(net, root, v, chain, c);
        NextIsLastHop(net, order, root, t, v, chain, x);
        var q;
        q, r := ListedIsCallable(net, order, root, t, c, chain', m);
        p := [v] + q;
        MatchLifts(net, TablesAfter(net, order, root, [], t), v, chain, c, Listing(net, order, c, chain').value[m],
                   m, q, r, x);
      }
    }
  }

  // A call that matches below the child c matches above it, once v routes x to c.
  lemma MatchLifts(net: Network, t: Tables, v: Id, chain: seq<Id>, c: Id, listed: Tool, m: Name, q: seq<Id>,
                   r: Reached, x: Name)
    requires WellFormed(net) && HasEdge(net, v, c) && v !in chain && c in net
    requires x !in net[v].tools && v in t && x in t[v] && t[v][x] == c
    requires m == net[v].subs[c].LocalName(x) && x == net[v].subs[c].GlobalName(m)
    requires CallMatches(net, t, c, chain + [v], listed, m, q, r)
    ensures CallMatches(net, t, v, chain, Adopt(listed, x, c), x, [v] + q, r)
  {
    OffersLift(net, v, chain, c, m, q, r.tool);
    CallForwards(net, t, v, chain, c, x);
  }

  lemma CallForwards(net: Network, t: Tables, v: Id, chain: seq<Id>, c: Id, x: Name)
    requires HasEdge(net, v, c) && v !in chain && c in net
    requires x !in net[v].tools && v in t && x in t[v] && t[v][x] == c
    ensures Call(net, t, v, x, chain) == Call(net, t, c, net[v].subs[c].LocalName(x), chain + [v])
  {
  }

  // A name can be called exactly when it is listed. The call then runs the native tool at
  // the end of a path whose prefixes spell the listed name, and what was listed is that
  // tool's definition.
  ghost predicate Agrees(net: Network, order: Order, root: Id, t: Tables, x: Name)
    requires root in net
  {
    var called, listing := Call(net, t, root, x, []), Listing(net, order, root, []);
    && listing.Ok?
    && (called.Ok? <==> x in listing.value)
    && (called.Ok? ==>
          exists p :: Offers(net, root, [], x, p, called.value.tool) && p[|p| - 1] == called.value.station
                      && listing.value[x] == Delivered(net, called.value, x))
    && (called.Err? ==> called.error == McpError(INVALID_PARAMS, x))
  }

  // On every network, cyclic or not, and from any (stale) tables, a name that a root listing
  // does not contain is refused after it.
  lemma {:induction false} UnlistedIsRefused(net: Network, order: Order, root: Id, t: Tables, x: Name)
    requires root in net && net[root].Station?
    requires x !in Names(net, order, root, [])
    ensures Call(net, TablesAfter(net, order, root, [], t), root, x, []) == Err(McpError(INVALID_PARAMS, x))
  {
    TableIsLast(net, order, root, [], t, root);
    GatherProvides(net, order, net[root].subs, [] + [root], order(root, []), Gathered(net[root].tools, map[]), x);
  }

  // A name the listing came by on an undisturbed way can be called, and runs what was listed.
  lemma {:induction false} ListedNamesAreCallable(net: Network, order: Order, root: Id, t: Tables, x: Name)
    requires WellFormed(net) && ValidOrder(net, order) && root in net && net[root].Station?
    requires x in Names(net, order, root, []) ==> Undisturbed(net, order, root, root, [], x)
    ensures Agrees(net, order, root, TablesAfter(net, order, root, [], t), x)
  {
    if x in Names(net, order, root, []) {
      assert Asked(net, root, [] + [root]);
      var p, r := ListedIsCallable(net, order, root, t, root, [], x);
    } else {
      UnlistedIsRefused(net, order, root, t, x);
    }
  }

  lemma {:induction false} SteadyNetworksAgree(net: Network, order: Order, root: Id, t: Tables, x: Name)
    requires WellFormed(net) && ValidOrder(net, order) && root in net && net[root].Station?
    requires Steady(net, order, root)
    ensures Agrees(net, order, root, TablesAfter(net, order, root, [], t), x)
  {
    assert Asked(net, root, [] + [root]);
    SteadyIsUndisturbed(net, order, root, root, [], x);
    ListedNamesAreCallable(net, order, root, t, x);
  }

  lemma {:induction false} AcyclicNetworksAgree(net: Network, order: Order, root: Id, t: Tables, x: Name)
    requires Tame(net, order) && root in net && net[root].Station?
    ensures Agrees(net, order, root, TablesAfter(net, order, root, [], t), x)
  {
    AcyclicIsSteady(net, order, root);
    SteadyNetworksAgree(net, order, root, t, x);
  }
}
