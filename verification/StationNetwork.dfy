// The network of tool servers as one value: what every peer answers to
// `tools/list` and `tools/call`, and the route tables those answers leave behind.
// An id outside the network is a peer that does not answer.
module StationNetwork {
  import opened Wrappers

  type Id = string
  type Name = string

  // A tool definition; `group` is the `kissbot/group` metadata entry.
  datatype Tool = Tool(name: Name, definition: string, group: Option<string>)

  datatype Sub = Sub(prefix: Option<string>) {

    function GlobalName(name: Name): (r: Name)
      ensures LocalName(r) == name
    {
      if prefix.Some? then prefix.value + name else name
    }

    function LocalName(name: Name): (r: Name)
      ensures prefix.Some? && prefix.value <= name ==> prefix.value + r == name
      ensures prefix.None? || !(prefix.value <= name) ==> r == name
    {
      if prefix.Some? && prefix.value <= name then name[|prefix.value|..] else name
    }
  }

  // A station merges its own tools with those of its children; a third-party
  // server (`Foreign`) is a leaf that answers with a plain list.
  datatype Peer =
    | Station(tools: map<Name, Tool>, subs: map<Id, Sub>)
    | Foreign(listed: seq<Tool>)

  type Network = map<Id, Peer>

  // The order in which a station walks its children; it may differ per request.
  type Order = (Id, seq<Id>) -> seq<Id>

  // Route tables of all stations: station -> tool name -> direct child.
  type Tables = map<Id, map<Name, Id>>

  const STATION_CYCLE := -50001
  const INVALID_PARAMS := -32602
  const INTERNAL_ERROR := -32603

  datatype McpError = McpError(code: int, subject: string)

  ghost predicate ValidOrder(net: Network, order: Order) {
    forall v, chain: seq<Id> {:trigger order(v, chain)} | v in net && net[v].Station? ::
      forall c :: c in order(v, chain) <==> c in net[v].subs
  }

  ghost predicate FixedOrder(order: Order) {
    forall v, chain: seq<Id> :: order(v, chain) == order(v, [])
  }

  // ----- the ancestor chain as a termination measure -----

  function Elems<T>(s: seq<T>): set<T> { set x | x in s }

  function Budget(net: Network, chain: seq<Id>): nat { |net.Keys - Elems(chain)| }

  lemma BudgetDrops(net: Network, chain: seq<Id>, v: Id)
    requires v in net && v !in chain
    ensures Budget(net, chain + [v]) == Budget(net, chain) - 1
  {
    assert net.Keys - Elems(chain + [v]) == net.Keys - Elems(chain) - {v};
  }

  // ----- listing -----

  datatype Gathered = Gathered(tools: map<Name, Tool>, routes: map<Name, Id>)

  // What a parent turns a child's tool into: its global name, and the child's
  // default group where the tool carries none.
  function Adopt(tool: Tool, name: Name, child: Id): Tool {
    tool.(name := name, group := if tool.group.None? then Some("[" + child + "]") else tool.group)
  }

  function GlobalNames(sub: Sub, listing: map<Name, Tool>): set<Name> {
    set n | n in listing :: sub.GlobalName(n)
  }

  // Merge one child's answer: names already present win.
  function Absorb(acc: Gathered, child: Id, sub: Sub, listing: map<Name, Tool>): Gathered {
    var added := GlobalNames(sub, listing) - acc.tools.Keys;
    Gathered(
      acc.tools + (map x | x in added && sub.LocalName(x) in listing :: Adopt(listing[sub.LocalName(x)], x, child)),
      acc.routes + (map x | x in added :: child))
  }

  // A plain list keeps the first tool of a name.
  function FirstOfName(tools: seq<Tool>): map<Name, Tool> {
    if tools == [] then map[] else FirstOfName(tools[1..])[tools[0].name := tools[0]]
  }

  function Listing(net: Network, order: Order, v: Id, chain: seq<Id>): Result<map<Name, Tool>, McpError>
    requires v in net
    decreases Budget(net, chain), 0
  {
    match net[v]
    case Foreign(listed) => Ok(FirstOfName(listed))
    case Station(tools, subs) =>
      if v in chain then Err(McpError(STATION_CYCLE, v))
      else
        BudgetDrops(net, chain, v);
        Ok(Gather(net, order, subs, chain + [v], order(v, chain), Gathered(tools, map[])).tools)
  }

  // The routes a station stores when it answers a listing under `chain`.
  function Routes(net: Network, order: Order, v: Id, chain: seq<Id>): map<Name, Id>
    requires v in net && net[v].Station?
  {
    Gather(net, order, net[v].subs, chain + [v], order(v, chain), Gathered(net[v].tools, map[])).routes
  }

  function Gather(net: Network, order: Order, subs: map<Id, Sub>, chain: seq<Id>, todo: seq<Id>,
                  acc: Gathered): Gathered
    decreases Budget(net, chain), 1 + |todo|
  {
    if todo == [] then acc
    else Gather(net, order, subs, chain, todo[1..], GatherOne(net, order, subs, chain, todo[0], acc))
  }

  // A child that does not answer, or answers with an error, contributes nothing.
  function GatherOne(net: Network, order: Order, subs: map<Id, Sub>, chain: seq<Id>, c: Id, acc: Gathered): Gathered
    decreases Budget(net, chain), 1
  {
    if c !in subs || c !in net then acc
    else match Listing(net, order, c, chain)
      case Ok(listing) => Absorb(acc, c, subs[c], listing)
      case Err(_) => acc
  }

  // ----- the route tables a listing leaves behind -----

  function TablesAfter(net: Network, order: Order, v: Id, chain: seq<Id>, t: Tables): Tables
    requires v in net
    decreases Budget(net, chain), 0
  {
    if net[v].Foreign? || v in chain then t
    else
      BudgetDrops(net, chain, v);
      TablesAfterAll(net, order, net[v].subs, chain + [v], order(v, chain), t)[v := Routes(net, order, v, chain)]
  }

  function TablesAfterAll(net: Network, order: Order, subs: map<Id, Sub>, chain: seq<Id>, todo: seq<Id>,
                          t: Tables): Tables
    decreases Budget(net, chain), 1 + |todo|
  {
    if todo == [] then t
    else
      var t' := if todo[0] in subs && todo[0] in net then TablesAfter(net, order, todo[0], chain, t) else t;
      TablesAfterAll(net, order, subs, chain, todo[1..], t')
  }

  // ----- calling -----

  // Where a call ends: the peer that runs the tool and the name it runs it under.
  datatype Reached = Reached(station: Id, tool: Name)

  function Call(net: Network, t: Tables, v: Id, name: Name, chain: seq<Id>): Result<Reached, McpError>
    requires v in net
    decreases Budget(net, chain)
  {
    if net[v].Foreign? then Ok(Reached(v, name))
    else if v in chain then Err(McpError(STATION_CYCLE, v))
    else if name in net[v].tools then Ok(Reached(v, name))
    else if v in t && name in t[v] && t[v][name] in net[v].subs then
      var c := t[v][name];
      BudgetDrops(net, chain, v);
      if c !in net then Err(McpError(INTERNAL_ERROR, c))
      else Call(net, t, c, net[v].subs[c].LocalName(name), chain + [v])
    else Err(McpError(INVALID_PARAMS, name))
  }
}
