// What a listed tool looks like and which child it is taken from, in terms of the peers' own
// tools.
module StationDefinitions {
  import opened Wrappers
  import opened StationNetwork
  import opened StationListing
  import opened StationTables
  import opened StationAgreement

  // The peer's own tool of that name; in a plain list the first one counts.
  ghost predicate IsNative(p: Peer, n: Name, tool: Tool) {
    match p
    case Station(tools, _) => n in tools && tools[n] == tool
    case Foreign(listed) =>
      exists i ::
        0 <= i < |listed| && listed[i] == tool && tool.name == n && forall j | 0 <= j < i :: listed[j].name != n
  }

  lemma {:induction false} FirstOfNameIsFirst(listed: seq<Tool>, n: Name)
    requires n in FirstOfName(listed)
    ensures IsNative(Foreign(listed), n, FirstOfName(listed)[n])
  {
    if listed[0].name != n {
      FirstOfNameIsFirst(listed[1..], n);
      var tool := FirstOfName(listed)[n];
      var i :| 0 <= i < |listed| - 1 && listed[1..][i] == tool && tool.name == n
               && forall j | 0 <= j < i :: listed[1..][j].name != n;
      assert listed[i + 1] == tool;
      forall j | 0 <= j < i + 1
        ensures listed[j].name != n
      {
        assert j > 0 ==> listed[j] == listed[1..][j - 1];
      }
    }
  }

  // The tool shown under x is the native one at the end of p: its definition, the name x, and
  // its group or, where it has none and was adopted, the name of the last station of p.
  predicate ShownAs(tool: Tool, x: Name, native: Tool, p: seq<Id>)
    requires |p| > 0
  {
    && tool.name == x && tool.definition == native.definition
    && tool.group == if native.group.Some? || |p| == 1 then native.group else Some("[" + Last(p) + "]")
  }

  // Every listed tool is a native one seen through the prefixes of a simple path.
  lemma {:induction false} ListedToolIsNative(net: Network, order: Order, v: Id, chain: seq<Id>, x: Name)
    returns (p: seq<Id>, n: Name, native: Tool)
    requires WellFormed(net) && ValidOrder(net, order) && v in net
    requires Listing(net, order, v, chain).Ok? && x in Listing(net, order, v, chain).value
    ensures Offers(net, v, chain, x, p, n) && IsNative(net[Last(p)], n, native)
    ensures ShownAs(Listing(net, order, v, chain).value[x], x, native, p)
    decreases Budget(net, chain)
  {
    p, n, native := [v], x, Listing(net, order, v, chain).value[x];
    if net[v].Foreign? {
      FirstOfNameNames(net[v].listed);
      FirstOfNameIsFirst(net[v].listed, x);
    } else {
      var subs, chain' := net[v].subs, chain + [v];
      var g := Gather(net, order, subs, chain', order(v, chain), Gathered(net[v].tools, map[]));
      GatherProvides(net, order, subs, chain', order(v, chain), Gathered(net[v].tools, map[]), x);
      if x !in net[v].tools {
        var c, m := g.routes[x], subs[g.routes[x]].LocalName(x);
        BudgetDrops(net, chain, v);
        var q;
        q, n, native := ListedToolIsNative(net, order, c, chain', m);
        p := [v] + q;
        OffersLift(net, v, chain, c, m, q, n);
        assert Last(p) == Last(q);
        AdoptedIsShown(Listing(net, order, c, chain').value[m], m, x, native, v, c, q);
      }
    }
  }

  // One station further up: a new name, and a group where there is none yet.
  lemma {:induction false} AdoptedIsShown(tool: Tool, m: Name, x: Name, native: Tool, v: Id, c: Id, q: seq<Id>)
    requires |q| > 0 && q[0] == c && ShownAs(tool, m, native, q)
    ensures ShownAs(Adopt(tool, x, c), x, native, [v] + q)
  {
    assert Last([v] + q) == Last(q);
    assert |q| == 1 ==> Last(q) == c;
  }

  // What a call is said to deliver is the native tool of the station it ends at.
  lemma {:induction false} DeliveredIsNative(net: Network, r: Reached, x: Name)
    requires r.station in net && r.tool in NativeNames(net[r.station])
    ensures IsNative(net[r.station], r.tool, NativeTool(net[r.station], r.tool))
    ensures var native, tool := NativeTool(net[r.station], r.tool), Delivered(net, r, x);
      && tool.name == x && tool.definition == native.definition
      && tool.group == if native.group.Some? then native.group else Some("[" + r.station + "]")
  {
    if net[r.station].Foreign? {
      FirstOfNameNames(net[r.station].listed);
      FirstOfNameIsFirst(net[r.station].listed, r.tool);
    }
  }

  // ----- what one station answers -----

  // A station refuses its own descendants with the cycle code, and answers everybody else.
  lemma {:induction false} ListingRefusesAncestors(net: Network, order: Order, v: Id, chain: seq<Id>)
    requires v in net && net[v].Station?
    ensures if v in chain then Listing(net, order, v, chain) == Err(McpError(-50001, v))
            else Listing(net, order, v, chain).Ok?
  {
  }

  // For any tables: own tools run at once, the stored route decides otherwise; an unknown
  // name, a route to no child and a child that does not answer have their codes.
  lemma {:induction false} CallAtOneStation(net: Network, t: Tables, v: Id, name: Name, chain: seq<Id>)
    requires v in net && net[v].Station?
    ensures var called := Call(net, t, v, name, chain);
            var route := if v in t && name in t[v] then Some(t[v][name]) else None;
      && (v in chain ==> called == Err(McpError(-50001, v)))
      && (v !in chain && name in net[v].tools ==> called == Ok(Reached(v, name)))
      && (v !in chain && name !in net[v].tools ==>
            && (route.None? || route.value !in net[v].subs ==> called == Err(McpError(-32602, name)))
            && (route.Some? && route.value in net[v].subs && route.value !in net ==>
                  called == Err(McpError(-32603, route.value))))
  {
  }

  // ----- who wins a clash -----

  // Own tools win over those of children, and among the children the first in order that
  // lists the name; that child gets the route.
  lemma {:induction false} FirstChildWins(net: Network, order: Order, v: Id, chain: seq<Id>, x: Name)
    requires v in net && net[v].Station? && v !in chain
    ensures var tools, routes := Listing(net, order, v, chain).value, Routes(net, order, v, chain);
      && (x in net[v].tools ==> x in tools && tools[x] == net[v].tools[x] && x !in routes)
      && (x in routes ==> ComesFirst(net, order, net[v].subs, chain + [v], order(v, chain), x, routes[x]))
      && (x in routes <==> x in tools && x !in net[v].tools)
  {
    var own, todo := Gathered(net[v].tools, map[]), order(v, chain);
    GatherProvides(net, order, net[v].subs, chain + [v], todo, own, x);
    if x !in net[v].tools && x in Gather(net, order, net[v].subs, chain + [v], todo, own).tools {
      GatherTakesFirst(net, order, net[v].subs, chain + [v], todo, own, x);
    }
  }

  ghost predicate ComesFirst(net: Network, order: Order, subs: map<Id, Sub>, chain: seq<Id>, todo: seq<Id>,
                             x: Name, c: Id)
  {
    exists i :: 0 <= i < |todo| && todo[i] == c && FromChild(net, order, subs, chain, c, x)
                && forall j | 0 <= j < i :: !FromChild(net, order, subs, chain, todo[j], x)
  }

  lemma {:induction false} GatherTakesFirst(net: Network, order: Order, subs: map<Id, Sub>, chain: seq<Id>,
                                            todo: seq<Id>, acc: Gathered, x: Name)
    requires acc.routes.Keys <= acc.tools.Keys && x !in acc.tools
    requires x in Gather(net, order, subs, chain, todo, acc).tools
    ensures var g := Gather(net, order, subs, chain, todo, acc);
            x in g.routes && ComesFirst(net, order, subs, chain, todo, x, g.routes[x])
    decreases |todo|
  {
    var c := todo[0];
    var acc' := GatherOne(net, order, subs, chain, c, acc);
    GatherProvides(net, order, subs, chain, todo, acc, x);
    OneAdds(net, order, subs, chain, c, acc, x);
    if x in acc'.tools {
      GatherProvides(net, order, subs, chain, todo[1..], acc', x);
    } else {
      GatherTakesFirst(net, order, subs, chain, todo[1..], acc', x);
      LaterIsFirst(net, order, subs, chain, todo, x, Gather(net, order, subs, chain, todo, acc).routes[x]);
    }
  }

  lemma {:induction false} OneAdds(net: Network, order: Order, subs: map<Id, Sub>, chain: seq<Id>, c: Id, acc: Gathered,
                                   x: Name)
    requires x !in acc.tools && acc.routes.Keys <= acc.tools.Keys
    ensures var g := GatherOne(net, order, subs, chain, c, acc);
      && (x in g.tools <==> FromChild(net, order, subs, chain, c, x))
      && (x in g.tools ==> x in g.routes && g.routes[x] == c)
  {
    if c in subs && c in net && Listing(net, order, c, chain).Ok? {
      AbsorbNames(acc, c, subs[c], Listing(net, order, c, chain).value);
    }
  }

  lemma {:induction false} LaterIsFirst(net: Network, order: Order, subs: map<Id, Sub>, chain: seq<Id>, todo: seq<Id>,
                                        x: Name, c: Id)
    requires todo != [] && !FromChild(net, order, subs, chain, todo[0], x)
    requires ComesFirst(net, order, subs, chain, todo[1..], x, c)
    ensures ComesFirst(net, order, subs, chain, todo, x, c)
  {
    var i :| 0 <= i < |todo| - 1 && todo[1..][i] == c && FromChild(net, order, subs, chain, c, x)
             && forall j | 0 <= j < i :: !FromChild(net, order, subs, chain, todo[1..][j], x);
    assert todo[i + 1] == c;
    forall j | 0 <= j < i + 1
      ensures !FromChild(net, order, subs, chain, todo[j], x)
    {
      assert j > 0 ==> todo[j] == todo[1..][j - 1];
    }
  }
}
