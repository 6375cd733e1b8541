// What can go wrong on a cycle, where a later listing of the same station under other
// ancestors overwrites the table an earlier answer relied on: a listed name is refused, or
// runs another tool. And a cycle on which nothing goes wrong.
module StationCycles {
  import opened Wrappers
  import opened StationNetwork
  import opened StationListing
  import opened StationTables
  import opened StationAgreement

  // r asks a and b, which ask each other; only b has a tool.
  predicate Triangle(net: Network, order: Order, tool: Tool) {
    && net == map["r" := Station(map[], map["a" := Sub(None), "b" := Sub(None)]),
                  "a" := Station(map[], map["b" := Sub(None)]),
                  "b" := Station(map["y" := tool], map["a" := Sub(None)])]
    && tool == Tool("y", "schema", Some("g"))
  }

  function TriangleOrder(v: Id, chain: seq<Id>): seq<Id> {
    if v == "r" then ["a", "b"] else if v == "a" then ["b"] else if v == "b" then ["a"] else []
  }

  // ----- stations with one or two children -----

  lemma {:induction false} GatherOnly(net: Network, order: Order, subs: map<Id, Sub>, chain: seq<Id>, c: Id,
                                      acc: Gathered)
    ensures Gather(net, order, subs, chain, [c], acc) == GatherOne(net, order, subs, chain, c, acc)
  {
    assert [c][1..] == [];
  }

  lemma {:induction false} TablesOnly(net: Network, order: Order, subs: map<Id, Sub>, chain: seq<Id>, c: Id, t: Tables)
    requires c in subs && c in net
    ensures TablesAfterAll(net, order, subs, chain, [c], t) == TablesAfter(net, order, c, chain, t)
  {
    assert [c][1..] == [];
  }

  lemma {:induction false} TablesBoth(net: Network, order: Order, subs: map<Id, Sub>, chain: seq<Id>, c: Id, d: Id,
                                      t: Tables)
    requires c in subs && c in net && d in subs && d in net
    ensures TablesAfterAll(net, order, subs, chain, [c, d], t)
         == TablesAfter(net, order, d, chain, TablesAfter(net, order, c, chain, t))
  {
    assert [c, d][1..] == [d];
    TablesOnly(net, order, subs, chain, d, TablesAfter(net, order, c, chain, t));
  }

  // ----- the answers of a and b -----

  // A station whose only child is an ancestor has its own tools and no routes.
  lemma {:induction false} OnlyChildBlocked(net: Network, order: Order, v: Id, chain: seq<Id>, c: Id)
    requires v in net && net[v].Station? && v !in chain && order(v, chain) == [c]
    requires c in net && net[c].Station? && c in chain
    ensures Listing(net, order, v, chain) == Ok(net[v].tools) && Routes(net, order, v, chain) == map[]
  {
    GatherOnly(net, order, net[v].subs, chain + [v], c, Gathered(net[v].tools, map[]));
  }

  lemma {:induction false} AnswerOfA(net: Network, order: Order, tool: Tool)
    requires Triangle(net, order, tool) && order == TriangleOrder
    ensures Listing(net, order, "a", ["r"]).Ok?
    ensures "y" in Listing(net, order, "a", ["r"]).value
  {
    var chain := ["r"] + ["a"];
    assert order("a", ["r"]) == ["b"] && order("b", chain) == ["a"];
    OnlyChildBlocked(net, order, "b", chain, "a");
    GatherOnly(net, order, net["a"].subs, chain, "b", Gathered(map[], map[]));
    AbsorbNames(Gathered(map[], map[]), "b", Sub(None), net["b"].tools);
    assert Sub(None).GlobalName("y") in GlobalNames(Sub(None), net["b"].tools);
  }

  // The root takes y from a, the child it asks first.
  lemma {:induction false} RootRoutesYToA(net: Network, order: Order, tool: Tool)
    requires Triangle(net, order, tool) && order == TriangleOrder
    ensures Listing(net, order, "r", []).Ok? && "y" in Listing(net, order, "r", []).value
    ensures var routes := Routes(net, order, "r", []); "y" in routes && routes["y"] == "a"
  {
    AnswerOfA(net, order, tool);
    var subs, listing := net["r"].subs, Listing(net, order, "a", ["r"]).value;
    assert order("r", []) == ["a", "b"] && [] + ["r"] == ["r"] && ["a", "b"][1..] == ["b"];
    var acc := GatherOne(net, order, subs, ["r"], "a", Gathered(map[], map[]));
    assert acc == Absorb(Gathered(map[], map[]), "a", Sub(None), listing);
    AbsorbNames(Gathered(map[], map[]), "a", Sub(None), listing);
    assert Sub(None).GlobalName("y") in GlobalNames(Sub(None), listing);
    assert Sub(None).LocalName("y") == "y";
    GatherProvides(net, order, subs, ["r"], ["b"], acc, "y");
  }

  // The listing of b asks a again, below b, and so empties a's table.
  lemma {:induction false} TableOfAIsEmptied(net: Network, order: Order, tool: Tool, t: Tables)
    requires Triangle(net, order, tool) && order == TriangleOrder
    ensures var t' := TablesAfter(net, order, "b", ["r"], t); "a" in t' && t'["a"] == map[]
  {
    var chain := ["r"] + ["b"];
    assert order("b", ["r"]) == ["a"] && order("a", chain) == ["b"];
    OnlyChildBlocked(net, order, "a", chain, "b");
    TablesOnly(net, order, net["b"].subs, chain, "a", t);
  }

  lemma {:induction false} TablesAfterListing(net: Network, order: Order, tool: Tool, t: Tables)
    requires Triangle(net, order, tool) && order == TriangleOrder
    ensures var end := TablesAfter(net, order, "r", [], t);
            "a" in end && end["a"] == map[] && "r" in end && end["r"] == Routes(net, order, "r", [])
  {
    assert order("r", []) == ["a", "b"] && [] + ["r"] == ["r"];
    TableOfAIsEmptied(net, order, tool, TablesAfter(net, order, "a", ["r"], t));
    TablesBoth(net, order, net["r"].subs, ["r"], "a", "b", t);
  }

  // On this cyclic network the root lists y and then cannot call it.
  lemma {:induction false} CyclicListingIsNotCallable(net: Network, order: Order, tool: Tool, t: Tables)
    requires Triangle(net, order, tool) && order == TriangleOrder
    ensures ValidOrder(net, order) && FixedOrder(order) && WellFormed(net)
    ensures Listing(net, order, "r", []).Ok? && "y" in Listing(net, order, "r", []).value
    ensures Call(net, TablesAfter(net, order, "r", [], t), "r", "y", []) == Err(McpError(INVALID_PARAMS, "y"))
  {
    RootRoutesYToA(net, order, tool);
    TablesAfterListing(net, order, tool, t);
    CallForwards(net, TablesAfter(net, order, "r", [], t), "r", [], "a", "y");
  }

  // ----- a name that runs another tool -----

  // r asks a and b; a asks b and d, b asks a; b and d both have a tool y.
  predicate Kite(net: Network, order: Order, ofB: Tool, ofD: Tool) {
    && net == map["r" := Station(map[], map["a" := Sub(None), "b" := Sub(None)]),
                  "a" := Station(map[], map["b" := Sub(None), "d" := Sub(None)]),
                  "b" := Station(map["y" := ofB], map["a" := Sub(None)]),
                  "d" := Station(map["y" := ofD], map[])]
    && ofB == Tool("y", "read", Some("g")) && ofD == Tool("y", "delete", Some("g"))
  }

  function KiteOrder(v: Id, chain: seq<Id>): seq<Id> {
    if v == "r" then ["a", "b"] else if v == "a" then ["b", "d"] else if v == "b" then ["a"] else []
  }

  lemma {:induction false} GatherBoth(net: Network, order: Order, subs: map<Id, Sub>, chain: seq<Id>, c: Id, d: Id,
                                      acc: Gathered)
    ensures Gather(net, order, subs, chain, [c, d], acc) ==
            GatherOne(net, order, subs, chain, d, GatherOne(net, order, subs, chain, c, acc))
  {
    assert [c, d][1..] == [d];
    GatherOnly(net, order, subs, chain, d, GatherOne(net, order, subs, chain, c, acc));
  }

  // The first answer with y, from a child without a prefix, provides it.
  lemma {:induction false} AbsorbsY(acc: Gathered, c: Id, listing: map<Name, Tool>)
    requires "y" !in acc.tools && "y" in listing && listing["y"].name == "y" && listing["y"].group.Some?
    ensures var g := Absorb(acc, c, Sub(None), listing);
            "y" in g.tools && g.tools["y"] == listing["y"] && "y" in g.routes && g.routes["y"] == c
  {
    assert Sub(None).GlobalName("y") == "y" && Sub(None).LocalName("y") == "y";
    assert "y" in GlobalNames(Sub(None), listing);
  }

  // A station without children lists its own tools.
  lemma {:induction false} LeafLists(net: Network, order: Order, v: Id, chain: seq<Id>)
    requires v in net && net[v].Station? && v !in chain && order(v, chain) == []
    ensures Listing(net, order, v, chain) == Ok(net[v].tools)
  {
  }

  // Asked by r, a takes y from b, the child it asks first.
  lemma {:induction false} KiteBelowR(net: Network, order: Order, ofB: Tool, ofD: Tool)
    requires Kite(net, order, ofB, ofD) && order == KiteOrder
    ensures var listing := Listing(net, order, "a", ["r"]);
            listing.Ok? && "y" in listing.value && listing.value["y"] == ofB
  {
    var chain, none := ["r"] + ["a"], Gathered(map[], map[]);
    assert order("a", ["r"]) == ["b", "d"] && order("b", chain) == ["a"];
    OnlyChildBlocked(net, order, "b", chain, "a");
    AbsorbsY(none, "b", net["b"].tools);
    var acc := GatherOne(net, order, net["a"].subs, chain, "b", none);
    assert ["b", "d"][1..] == ["d"];
    GatherProvides(net, order, net["a"].subs, chain, ["d"], acc, "y");
  }

  // Asked through b, a gets no answer from b and takes y from d.
  lemma {:induction false} KiteBelowB(net: Network, order: Order, ofB: Tool, ofD: Tool)
    requires Kite(net, order, ofB, ofD) && order == KiteOrder
    ensures var routes := Routes(net, order, "a", ["r", "b"]); "y" in routes && routes["y"] == "d"
  {
    var chain, none := ["r", "b"] + ["a"], Gathered(map[], map[]);
    assert order("a", ["r", "b"]) == ["b", "d"] && order("d", chain) == [];
    assert "b" in chain;
    LeafLists(net, order, "d", chain);
    GatherBoth(net, order, net["a"].subs, chain, "b", "d", none);
    AbsorbsY(none, "d", net["d"].tools);
  }

  // That is the last time it is asked.
  lemma {:induction false} KiteLastAsked(net: Network, order: Order, ofB: Tool, ofD: Tool)
    requires Kite(net, order, ofB, ofD) && order == KiteOrder
    ensures LastAsked(net, order, "r", [], "a") == Some(["r", "b"])
  {
    assert order("r", []) == ["a", "b"] && order("b", ["r"]) == ["a"];
    assert [] + ["r"] == ["r"] && ["r"] + ["b"] == ["r", "b"];
    assert ["a", "b"][1..] == ["b"] && ["b"][1..] == [] && ["a"][1..] == [];
    assert LastAskedAll(net, order, net["b"].subs, ["r", "b"], ["a"], "a") == Some(["r", "b"]);
    assert LastAskedAll(net, order, net["r"].subs, ["r"], ["b"], "a") == Some(["r", "b"]);
  }

  // From its first child on, the root has y.
  lemma {:induction false} KiteFromA(net: Network, order: Order, ofB: Tool, ofD: Tool)
    requires Kite(net, order, ofB, ofD) && order == KiteOrder
    ensures var g := GatherOne(net, order, net["r"].subs, ["r"], "a", Gathered(map[], map[]));
      && "y" in g.tools && g.tools["y"] == ofB && "y" in g.routes && g.routes["y"] == "a"
      && g.routes.Keys <= g.tools.Keys
  {
    KiteBelowR(net, order, ofB, ofD);
    AbsorbsY(Gathered(map[], map[]), "a", Listing(net, order, "a", ["r"]).value);
  }

  lemma {:induction false} KiteRoot(net: Network, order: Order, ofB: Tool, ofD: Tool)
    requires Kite(net, order, ofB, ofD) && order == KiteOrder
    ensures Listing(net, order, "r", []).Ok? && "y" in Listing(net, order, "r", []).value
    ensures Listing(net, order, "r", []).value["y"] == ofB
    ensures var routes := Routes(net, order, "r", []); "y" in routes && routes["y"] == "a"
  {
    var subs := net["r"].subs;
    var none := Gathered(map[], map[]);
    KiteFromA(net, order, ofB, ofD);
    assert order("r", []) == ["a", "b"] && [] + ["r"] == ["r"] && ["a", "b"][1..] == ["b"];
    GatherProvides(net, order, subs, ["r"], ["b"], GatherOne(net, order, subs, ["r"], "a", none), "y");
  }

  // On this cyclic network the root lists b's y, and calling y runs d's, from any tables.
  lemma {:induction false} CyclicCallRunsAnotherTool(net: Network, order: Order, ofB: Tool, ofD: Tool, t: Tables)
    requires Kite(net, order, ofB, ofD) && order == KiteOrder
    ensures ValidOrder(net, order) && FixedOrder(order) && WellFormed(net)
    ensures Listing(net, order, "r", []).Ok? && "y" in Listing(net, order, "r", []).value
    ensures Listing(net, order, "r", []).value["y"] == Delivered(net, Reached("b", "y"), "y") == ofB
    ensures Call(net, TablesAfter(net, order, "r", [], t), "r", "y", []) == Ok(Reached("d", "y"))
    ensures Delivered(net, Reached("d", "y"), "y") == ofD != ofB
  {
    KiteRoot(net, order, ofB, ofD);
    KiteTables(net, order, ofB, ofD, t);
    KiteCall(net, order, ofB, ofD, TablesAfter(net, order, "r", [], t));
  }

  lemma {:induction false} KiteTables(net: Network, order: Order, ofB: Tool, ofD: Tool, t: Tables)
    requires Kite(net, order, ofB, ofD) && order == KiteOrder
    ensures SendsYAround(TablesAfter(net, order, "r", [], t))
  {
    KiteRoot(net, order, ofB, ofD);
    KiteBelowB(net, order, ofB, ofD);
    KiteLastAsked(net, order, ofB, ofD);
    TableIsLast(net, order, "r", [], t, "r");
    TableIsLast(net, order, "r", [], t, "a");
  }

  predicate SendsYAround(t: Tables) {
    "r" in t && "y" in t["r"] && t["r"]["y"] == "a" && "a" in t && "y" in t["a"] && t["a"]["y"] == "d"
  }

  lemma {:induction false} KiteCall(net: Network, order: Order, ofB: Tool, ofD: Tool, t: Tables)
    requires Kite(net, order, ofB, ofD) && SendsYAround(t)
    ensures Call(net, t, "r", "y", []) == Ok(Reached("d", "y"))
  {
    CallForwards(net, t, "r", [], "a", "y");
    CallForwards(net, t, "a", [] + ["r"], "d", "y");
  }

  // ----- a cycle that does no harm -----

  // Two stations that list each other and nobody else.
  predicate MutualPair(net: Network, a: Id, b: Id) {
    && a != b && net.Keys == {a, b}
    && net[a].Station? && net[b].Station? && net[a].subs.Keys == {b} && net[b].subs.Keys == {a}
  }

  lemma {:induction false} PairWalk(net: Network, a: Id, b: Id, p: seq<Id>, i: nat)
    requires MutualPair(net, a, b) && EdgeWalk(net, p) && p[0] == a && i < |p|
    ensures p[i] == if i % 2 == 0 then a else b
  {
    if i > 0 {
      PairWalk(net, a, b, p, i - 1);
      assert HasEdge(net, p[i - 1], p[i - 1 + 1]);
    }
  }

  lemma {:induction false} PairIsAskedOnce(net: Network, a: Id, b: Id, p: seq<Id>)
    requires MutualPair(net, a, b) && Asked(net, a, p)
    ensures p == [a] || p == [a, b]
  {
    if |p| > 1 {
      PairWalk(net, a, b, p, 1);
    }
    if |p| > 2 {
      PairWalk(net, a, b, p, 2);
    }
  }

  // They are a cycle, and listed and callable names are the same.
  lemma {:induction false} MutualPairAgrees(net: Network, order: Order, a: Id, b: Id, t: Tables, x: Name)
    requires MutualPair(net, a, b) && WellFormed(net) && ValidOrder(net, order)
    ensures !Acyclic(net) && Agrees(net, order, a, TablesAfter(net, order, a, [], t), x)
  {
    assert EdgeWalk(net, [a, b, a]);
    forall p, q | Asked(net, a, p) && Asked(net, a, q) && Last(p) == Last(q)
      ensures RoutesUnder(net, order, p) == RoutesUnder(net, order, q)
    {
      PairIsAskedOnce(net, a, b, p);
      PairIsAskedOnce(net, a, b, q);
      assert p == q;
    }
    SteadyNetworksAgree(net, order, a, t, x);
  }
}
