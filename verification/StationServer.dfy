// The station itself: an object that answers listings and calls, asks its children,
// and stores its route table. Its peers are objects of the same kind.
module StationServer {
  import opened Wrappers
  import opened StationNetwork
  import opened StationListing
  import Text

  // ----- tool lists -----

  ghost predicate DistinctNames(tools: seq<Tool>) {
    forall i, j | 0 <= i < j < |tools| :: tools[i].name != tools[j].name
  }

  ghost predicate SortedNames(tools: seq<Tool>) {
    forall i, j | 0 <= i < j < |tools| :: Text.Less(tools[i].name, tools[j].name)
  }

  lemma {:induction false} FirstOfNameConcat(a: seq<Tool>, b: seq<Tool>)
    ensures FirstOfName(a + b) == FirstOfName(b) + FirstOfName(a)
  {
    if a == [] {
      assert a + b == b;
    } else {
      assert (a + b)[1..] == a[1..] + b;
      FirstOfNameConcat(a[1..], b);
    }
  }

  lemma FirstOfNamePush(tools: seq<Tool>, t: Tool)
    ensures t.name !in FirstOfName(tools) ==> FirstOfName(tools + [t]) == FirstOfName(tools)[t.name := t]
    ensures t.name in FirstOfName(tools) ==> FirstOfName(tools + [t]) == FirstOfName(tools)
    ensures DistinctNames(tools) && t.name !in FirstOfName(tools) ==> DistinctNames(tools + [t])
  {
    FirstOfNameConcat(tools, [t]);
    FirstOfNameNames(tools);
    assert FirstOfName([t]) == map[t.name := t];
    if DistinctNames(tools) && t.name !in FirstOfName(tools) {
      assert forall i | 0 <= i < |tools| :: tools[i] in tools;
    }
  }

  // A tool is registered if its name is free.
  lemma {:induction false} RegisterNext(seen: seq<Tool>, t: Tool)
    ensures FirstOfName(seen + [t]) ==
            if t.name in FirstOfName(seen) then FirstOfName(seen) else FirstOfName(seen)[t.name := t]
  {
    FirstOfNamePush(seen, t);
  }

  // Stable insertion by name.
  function Insert(t: Tool, tools: seq<Tool>): (r: seq<Tool>)
    ensures forall u :: u in r <==> u == t || u in tools
  {
    if tools == [] || !Text.Less(tools[0].name, t.name) then [t] + tools
    else [tools[0]] + Insert(t, tools[1..])
  }

  function SortByName(tools: seq<Tool>): (r: seq<Tool>)
    ensures forall u :: u in r <==> u in tools
  {
    if tools == [] then [] else Insert(tools[0], SortByName(tools[1..]))
  }

  lemma {:induction false} InsertSorts(t: Tool, tools: seq<Tool>)
    requires SortedNames(tools) && forall u | u in tools :: u.name != t.name
    ensures SortedNames(Insert(t, tools))
  {
    if tools != [] {
      Text.LessIsTotal(tools[0].name, t.name);
      if Text.Less(tools[0].name, t.name) {
        InsertSorts(t, tools[1..]);
        SortedCons(tools[0], Insert(t, tools[1..]));
      } else {
        forall u | u in tools
          ensures Text.Less(t.name, u.name)
        {
          if u != tools[0] {
            Text.LessIsTransitive(t.name, tools[0].name, u.name);
          }
        }
        SortedCons(t, tools);
      }
    }
  }

  lemma SortedCons(t: Tool, tools: seq<Tool>)
    requires SortedNames(tools) && forall u | u in tools :: Text.Less(t.name, u.name)
    ensures SortedNames([t] + tools)
  {
    var r := [t] + tools;
    assert forall i | 0 < i < |r| :: r[i] == tools[i - 1];
  }

  lemma {:induction false} InsertKeepsFirst(t: Tool, tools: seq<Tool>)
    requires t.name !in FirstOfName(tools)
    ensures FirstOfName(Insert(t, tools)) == FirstOfName(tools)[t.name := t]
  {
    var r := Insert(t, tools);
    if tools == [] || !Text.Less(tools[0].name, t.name) {
      assert r[1..] == tools;
    } else {
      InsertKeepsFirst(t, tools[1..]);
      assert r[1..] == Insert(t, tools[1..]);
    }
  }

  lemma {:induction false} SortByNameSorts(tools: seq<Tool>)
    requires DistinctNames(tools)
    ensures SortedNames(SortByName(tools)) && FirstOfName(SortByName(tools)) == FirstOfName(tools)
  {
    if tools != [] {
      var t, rest := tools[0], SortByName(tools[1..]);
      SortByNameSorts(tools[1..]);
      assert forall u | u in tools[1..] :: u.name != t.name;
      InsertSorts(t, rest);
      FirstOfNameNames(rest);
      InsertKeepsFirst(t, rest);
    }
  }

  // Merging a child's list tool by tool.
  function AbsorbTool(a: Gathered, c: Id, sub: Sub, t: Tool): Gathered {
    var x := sub.GlobalName(t.name);
    if x in a.tools then a else Gathered(a.tools[x := Adopt(t, x, c)], a.routes[x := c])
  }

  function AbsorbList(acc: Gathered, c: Id, sub: Sub, listed: seq<Tool>): Gathered {
    if listed == [] then acc
    else AbsorbTool(AbsorbList(acc, c, sub, listed[..|listed| - 1]), c, sub, listed[|listed| - 1])
  }

  lemma {:induction false} AbsorbListIsAbsorb(acc: Gathered, c: Id, sub: Sub, listed: seq<Tool>)
    ensures AbsorbList(acc, c, sub, listed) == Absorb(acc, c, sub, FirstOfName(listed))
  {
    var a, b := AbsorbList(acc, c, sub, listed), Absorb(acc, c, sub, FirstOfName(listed));
    forall y
      ensures SameAt(a, b, y)
    {
      AbsorbListAt(acc, c, sub, listed, y);
      AbsorbAt(acc, c, sub, FirstOfName(listed), y);
    }
    SameEverywhere(a, b);
  }

  ghost predicate SameAt(a: Gathered, b: Gathered, y: Name) {
    && (y in a.tools <==> y in b.tools) && (y in b.tools ==> a.tools[y] == b.tools[y])
    && (y in a.routes <==> y in b.routes) && (y in b.routes ==> a.routes[y] == b.routes[y])
  }

  lemma SameEverywhere(a: Gathered, b: Gathered)
    requires forall y :: SameAt(a, b, y)
    ensures a == b
  {
    assert forall y :: SameAt(a, b, y) ==> (y in a.tools <==> y in b.tools) && (y in a.routes <==> y in b.routes);
    assert a.tools == b.tools;
    assert a.routes == b.routes;
  }

  // a is acc with the child's tools m absorbed, as far as name y goes.
  ghost predicate AbsorbedAt(acc: Gathered, c: Id, sub: Sub, m: map<Name, Tool>, y: Name, a: Gathered) {
    var n := sub.LocalName(y);
    if y !in acc.tools && n in m && sub.GlobalName(n) == y then
      y in a.tools && a.tools[y] == Adopt(m[n], y, c) && y in a.routes && a.routes[y] == c
    else
      && (y in a.tools <==> y in acc.tools) && (y in acc.tools ==> a.tools[y] == acc.tools[y])
      && (y in a.routes <==> y in acc.routes) && (y in acc.routes ==> a.routes[y] == acc.routes[y])
  }

  lemma AbsorbAt(acc: Gathered, c: Id, sub: Sub, m: map<Name, Tool>, y: Name)
    ensures AbsorbedAt(acc, c, sub, m, y, Absorb(acc, c, sub, m))
  {
  }

  lemma {:induction false} AbsorbListAt(acc: Gathered, c: Id, sub: Sub, listed: seq<Tool>, y: Name)
    ensures AbsorbedAt(acc, c, sub, FirstOfName(listed), y, AbsorbList(acc, c, sub, listed))
    decreases |listed|
  {
    if listed != [] {
      var init, t := listed[..|listed| - 1], listed[|listed| - 1];
      AbsorbListAt(acc, c, sub, init, y);
      AbsorbListAt(acc, c, sub, init, sub.GlobalName(t.name));
      FirstOfNamePush(init, t);
      assert init + [t] == listed;
      AbsorbToolAt(acc, c, sub, FirstOfName(init), t, y, AbsorbList(acc, c, sub, init));
    }
  }

  // One more tool, as far as name y goes: a clash changes nothing, a new name adds it.
  lemma {:induction false} AbsorbToolAt(acc: Gathered, c: Id, sub: Sub, m: map<Name, Tool>, t: Tool, y: Name,
                                        a: Gathered)
    requires AbsorbedAt(acc, c, sub, m, y, a) && AbsorbedAt(acc, c, sub, m, sub.GlobalName(t.name), a)
    ensures AbsorbedAt(acc, c, sub, if t.name in m then m else m[t.name := t], y, AbsorbTool(a, c, sub, t))
  {
    assert sub.LocalName(sub.GlobalName(t.name)) == t.name;
  }

  // ----- the station object -----

  datatype Endpoint = Kissbot(station: Station) | ThirdParty(tools: seq<Tool>)

  type World = map<Id, Endpoint>

  class Station {
    const id: Id
    const tools: map<Name, Tool>
    const subStations: map<Id, Sub>
    var toolRoutes: map<Name, Id>

    // Tools of the configured groups; a name registered by an earlier group is kept.
    constructor FromRepo(id: Id, groups: seq<string>, builtin: string -> Option<seq<Tool>>, subs: map<Id, Sub>)
      ensures this.id == id && subStations == subs && toolRoutes == map[]
      ensures tools == FirstOfName(GroupTools(groups, builtin))
    {
      var index: map<Name, Tool> := map[];
      ghost var seen: seq<Tool> := [];
      for i := 0 to |groups|
        invariant seen == GroupTools(groups[..i], builtin)
        invariant index == FirstOfName(seen)
      {
        GroupToolsPush(groups, builtin, i);
        var group := builtin(groups[i]);
        if group.Some? {
          ghost var before := seen;
          for k := 0 to |group.value|
            invariant seen == before + group.value[..k]
            invariant index == FirstOfName(seen)
          {
            var tool := group.value[k];
            RegisterNext(seen, tool);
            if tool.name !in index {
              index := index[tool.name := tool];
            }
            seen := seen + [tool];
            assert before + group.value[..k] + [tool] == before + group.value[..k + 1];
          }
          assert group.value[..|group.value|] == group.value;
        }
      }
      assert groups[..|groups|] == groups;
      this.id := id;
      this.tools := index;
      this.subStations := subs;
      this.toolRoutes := map[];
    }

    // Own tools first, then each child's under its prefix; the route table is rebuilt.
    method ListTools(world: World, order: Order, ancestors: seq<Id>) returns (r: Result<seq<Tool>, McpError>)
      requires ValidWorld(world) && id in world && world[id] == Kissbot(this)
      modifies Servers(world)`toolRoutes
      ensures Lists(r, Listing(Net(world), order, id, ancestors))
      ensures r.Ok? ==> SortedNames(r.value)
      ensures TablesOf(world) == TablesAfter(Net(world), order, id, ancestors, old(TablesOf(world)))
      decreases Budget(Net(world), ancestors), 0
    {
      if id in ancestors {
        return Err(McpError(STATION_CYCLE, id));
      }
      var chain := ancestors + [id];
      BudgetDrops(Net(world), ancestors, id);
      var result, routes := Collect(world, order, chain, order(id, ancestors));
      StoreRoutes(world, routes);
      SortByNameSorts(result);
      r := Ok(SortByName(result));
    }

    method StoreRoutes(world: World, routes: map<Name, Id>)
      requires ValidWorld(world) && id in world && world[id] == Kissbot(this)
      modifies this`toolRoutes
      ensures TablesOf(world) == old(TablesOf(world))[id := routes]
    {
      toolRoutes := routes;
      assert forall v | v in world && world[v].Kissbot? && v != id :: world[v].station != this;
    }

    // The merge over the children, in the given order.
    method Collect(world: World, order: Order, chain: seq<Id>, subs: seq<Id>)
      returns (result: seq<Tool>, routes: map<Name, Id>)
      requires ValidWorld(world) && id in world && world[id] == Kissbot(this)
      modifies Servers(world)`toolRoutes
      ensures Merged(result, tools.Keys, routes,
              Gather(Net(world), order, subStations, chain, subs, Gathered(tools, map[])))
      ensures TablesOf(world) == TablesAfterAll(Net(world), order, subStations, chain, subs, old(TablesOf(world)))
      decreases Budget(Net(world), chain), 2
    {
      ghost var net, t0, start := Net(world), TablesOf(world), Gathered(tools, map[]);
      result := OwnTools();
      var localNames := tools.Keys;
      routes := map[];
      ghost var g := start;
      for k := 0 to |subs|
        invariant Merged(result, localNames, routes, g)
        invariant Walked(net, order, subStations, chain, subs, k, start, g, t0, TablesOf(world))
      {
        var c := subs[k];
        WalkOn(net, order, subStations, chain, subs, k, start, g, t0, TablesOf(world));
        if c in subStations && c in world {
          var answer := AskChild(world, order, c, chain);
          if answer.Ok? {
            result, routes := MergeChild(result, localNames, routes, g, c, subStations[c], answer.value);
          }
        }
        g := GatherOne(net, order, subStations, chain, c, g);
      }
      WalkedAll(net, order, subStations, chain, subs, start, g, t0, TablesOf(world));
    }

    static method AskChild(world: World, order: Order, c: Id, chain: seq<Id>) returns (r: Result<seq<Tool>, McpError>)
      requires ValidWorld(world) && c in world
      modifies Servers(world)`toolRoutes
      ensures Lists(r, Listing(Net(world), order, c, chain))
      ensures TablesOf(world) == TablesAfter(Net(world), order, c, chain, old(TablesOf(world)))
      decreases Budget(Net(world), chain), 1
    {
      match world[c] {
        case Kissbot(s) => r := s.ListTools(world, order, chain);
        case ThirdParty(ts) => r := Ok(ts);
      }
    }

    // Own tools, in whatever order the index yields them.
    method OwnTools() returns (own: seq<Tool>)
      requires forall n | n in tools :: tools[n].name == n
      ensures DistinctNames(own) && FirstOfName(own) == tools
    {
      own := [];
      var rest := tools.Keys;
      while rest != {}
        invariant rest <= tools.Keys
        invariant DistinctNames(own) && FirstOfName(own) == map n | n in tools && n !in rest :: tools[n]
      {
        var n :| n in rest;
        FirstOfNamePush(own, tools[n]);
        own := own + [tools[n]];
        rest := rest - {n};
      }
    }

    // Add the tools of child c that clash with nothing seen so far.
    static method MergeChild(known: seq<Tool>, localNames: set<Name>, knownRoutes: map<Name, Id>, ghost acc: Gathered,
                             c: Id, sub: Sub, listed: seq<Tool>)
      returns (result: seq<Tool>, routes: map<Name, Id>)
      requires Merged(known, localNames, knownRoutes, acc)
      ensures Merged(result, localNames, routes, Absorb(acc, c, sub, FirstOfName(listed)))
    {
      result, routes := known, knownRoutes;
      for i := 0 to |listed|
        invariant Merged(result, localNames, routes, AbsorbList(acc, c, sub, listed[..i]))
      {
        var tool := listed[i];
        assert listed[..i + 1][..i] == listed[..i];
        var name := sub.GlobalName(tool.name);
        if name !in localNames && name !in routes {
          MergeNext(result, localNames, routes, AbsorbList(acc, c, sub, listed[..i]), c, sub, tool);
          result := result + [Adopt(tool, name, c)];
          routes := routes[name := c];
        }
      }
      assert listed[..|listed|] == listed;
      AbsorbListIsAbsorb(acc, c, sub, listed);
    }

    // Run a tool here or pass the call to the child the route table names.
    method CallTool(world: World, name: Name, ancestors: seq<Id>) returns (r: Result<Reached, McpError>)
      requires ValidWorld(world) && id in world && world[id] == Kissbot(this)
      ensures r == Call(Net(world), TablesOf(world), id, name, ancestors)
      decreases Budget(Net(world), ancestors)
    {
      if id in ancestors {
        return Err(McpError(STATION_CYCLE, id));
      }
      if name in tools {
        return Ok(Reached(id, name));
      }
      BudgetDrops(Net(world), ancestors, id);
      if name in toolRoutes && toolRoutes[name] in subStations {
        var c := toolRoutes[name];
        var nn := subStations[c].LocalName(name);
        if c !in world {
          return Err(McpError(INTERNAL_ERROR, c));
        }
        match world[c] {
          case Kissbot(s) => r := s.CallTool(world, nn, ancestors + [id]);
          case ThirdParty(_) => r := Ok(Reached(c, nn));
        }
        return;
      }
      r := Err(McpError(INVALID_PARAMS, name));
    }
  }

  // The tools the configured groups register, in configuration order.
  function GroupTools(groups: seq<string>, builtin: string -> Option<seq<Tool>>): seq<Tool> {
    if groups == [] then []
    else GroupTools(groups[..|groups| - 1], builtin) + OneGroup(builtin(groups[|groups| - 1]))
  }

  // A group that is not built in has a name and no tools.
  function OneGroup(group: Option<seq<Tool>>): seq<Tool> {
    if group.Some? then group.value else []
  }

  // What is registered is determined by these laws: a built-in group brings all its tools in
  // its order, another none, and groups follow one another.
  lemma {:induction false} GroupToolsLaws(g: string, a: seq<string>, b: seq<string>,
                                          builtin: string -> Option<seq<Tool>>)
    ensures GroupTools([], builtin) == []
    ensures GroupTools([g], builtin) == if builtin(g).Some? then builtin(g).value else []
    ensures GroupTools(a + b, builtin) == GroupTools(a, builtin) + GroupTools(b, builtin)
    decreases |b|
  {
    assert [g][..0] == [];
    if b == [] {
      assert a + b == a;
    } else {
      var init := b[..|b| - 1];
      GroupToolsLaws(g, a, init, builtin);
      assert (a + b)[..|a + b| - 1] == a + init;
    }
  }

  lemma GroupToolsPush(groups: seq<string>, builtin: string -> Option<seq<Tool>>, i: nat)
    requires i < |groups|
    ensures GroupTools(groups[..i + 1], builtin) == GroupTools(groups[..i], builtin) + OneGroup(builtin(groups[i]))
  {
    assert groups[..i + 1][..i] == groups[..i];
  }

  // The working state of a merge: a tool list and a route table that stand for g.
  ghost predicate Merged(result: seq<Tool>, localNames: set<Name>, routes: map<Name, Id>, g: Gathered) {
    && DistinctNames(result) && FirstOfName(result) == g.tools && routes == g.routes
    && localNames + routes.Keys == g.tools.Keys
  }

  // After k children: what is gathered and stored so far continues to the full walk.
  ghost predicate Walked(net: Network, order: Order, subs: map<Id, Sub>, chain: seq<Id>, todo: seq<Id>, k: nat,
                         start: Gathered, g: Gathered, t0: Tables, t: Tables)
    requires k <= |todo|
  {
    && Gather(net, order, subs, chain, todo, start) == Gather(net, order, subs, chain, todo[k..], g)
    && TablesAfterAll(net, order, subs, chain, todo, t0) == TablesAfterAll(net, order, subs, chain, todo[k..], t)
  }

  lemma WalkOn(net: Network, order: Order, subs: map<Id, Sub>, chain: seq<Id>, todo: seq<Id>, k: nat,
               start: Gathered, g: Gathered, t0: Tables, t: Tables)
    requires k < |todo| && Walked(net, order, subs, chain, todo, k, start, g, t0, t)
    ensures var c := todo[k];
            Walked(net, order, subs, chain, todo, k + 1, start, GatherOne(net, order, subs, chain, c, g), t0,
                   if c in subs && c in net then TablesAfter(net, order, c, chain, t) else t)
  {
    assert todo[k..][0] == todo[k] && todo[k..][1..] == todo[k + 1..];
  }

  lemma WalkedAll(net: Network, order: Order, subs: map<Id, Sub>, chain: seq<Id>, todo: seq<Id>,
                  start: Gathered, g: Gathered, t0: Tables, t: Tables)
    requires Walked(net, order, subs, chain, todo, |todo|, start, g, t0, t)
    ensures g == Gather(net, order, subs, chain, todo, start) && t == TablesAfterAll(net, order, subs, chain, todo, t0)
  {
    assert todo[|todo|..] == [];
  }

  lemma MergeNext(result: seq<Tool>, localNames: set<Name>, routes: map<Name, Id>, g: Gathered, c: Id, sub: Sub,
                  t: Tool)
    requires Merged(result, localNames, routes, g) && sub.GlobalName(t.name) !in g.tools
    ensures var x := sub.GlobalName(t.name);
            Merged(result + [Adopt(t, x, c)], localNames, routes[x := c], AbsorbTool(g, c, sub, t))
  {
    FirstOfNamePush(result, Adopt(t, sub.GlobalName(t.name), c));
  }

  // A list answer stands for the listing of the network value.
  ghost predicate Lists(r: Result<seq<Tool>, McpError>, listing: Result<map<Name, Tool>, McpError>) {
    match r
    case Ok(tools) => listing == Ok(FirstOfName(tools))
    case Err(e) => listing == Err(e)
  }

  function NamesOf(tools: seq<Tool>): (names: seq<Name>)
    ensures |names| == |tools| && forall i | 0 <= i < |tools| :: names[i] == tools[i].name
  {
    if tools == [] then [] else [tools[0].name] + NamesOf(tools[1..])
  }

  // Two answers of a station name the same tools in the same sequence, whatever order
  // the stations below walk their children in.
  lemma ListedSequenceIgnoresOrder(net: Network, order: Order, order': Order, v: Id, chain: seq<Id>, s: seq<Tool>,
                                   u: seq<Tool>)
    requires v in net && ValidOrder(net, order) && ValidOrder(net, order')
    requires Lists(Ok(s), Listing(net, order, v, chain)) && SortedNames(s)
    requires Lists(Ok(u), Listing(net, order', v, chain)) && SortedNames(u)
    ensures NamesOf(s) == NamesOf(u)
  {
    ListedNamesIgnoreOrder(net, order, order', v, chain);
    NamesAreKeys(s);
    NamesAreKeys(u);
    Text.IncreasingIsUnique(NamesOf(s), NamesOf(u));
  }

  lemma NamesAreKeys(tools: seq<Tool>)
    ensures forall x :: x in NamesOf(tools) <==> x in FirstOfName(tools)
  {
    FirstOfNameNames(tools);
    forall x
      ensures x in NamesOf(tools) <==> x in NativeNames(Foreign(tools))
    {
      if x in NamesOf(tools) {
        var i :| 0 <= i < |tools| && NamesOf(tools)[i] == x;
        assert tools[i] in tools;
      }
      if x in NativeNames(Foreign(tools)) {
        var t :| t in tools && t.name == x;
        var i :| 0 <= i < |tools| && tools[i] == t;
        assert NamesOf(tools)[i] == x;
      }
    }
  }

  // ----- a world of stations as a network value -----

  ghost predicate ValidWorld(world: World) {
    forall v | v in world && world[v].Kissbot? ::
      world[v].station.id == v && forall n | n in world[v].station.tools :: world[v].station.tools[n].name == n
  }

  ghost function Servers(world: World): set<Station> {
    set v | v in world && world[v].Kissbot? :: world[v].station
  }

  ghost function Net(world: World): Network {
    map v | v in world :: match world[v]
                          case Kissbot(s) => Peer.Station(s.tools, s.subStations)
                          case ThirdParty(ts) => Foreign(ts)
  }

  ghost function TablesOf(world: World): Tables
    reads Servers(world)`toolRoutes
  {
    map v | v in world && world[v].Kissbot? :: world[v].station.toolRoutes
  }
}
