// How a call travels: the walk along the route tables, whatever they contain.
module StationCalling {
  import opened Wrappers
  import opened StationNetwork

  // The request a station forwards, if its tables point at an answering child.
  function Next(net: Network, t: Tables, r: Reached): Option<Reached> {
    var v, name := r.station, r.tool;
    if v in net && net[v].Station? && name !in net[v].tools
       && v in t && name in t[v] && t[v][name] in net[v].subs && t[v][name] in net
    then Some(Reached(t[v][name], net[v].subs[t[v][name]].LocalName(name)))
    else None
  }

  ghost predicate Walk(net: Network, t: Tables, v: Id, name: Name, w: seq<Reached>) {
    && |w| > 0 && w[0] == Reached(v, name)
    && (forall i | 0 <= i < |w| :: w[i].station in net)
    && (forall i | 0 <= i < |w| - 1 :: Next(net, t, w[i]) == Some(w[i + 1]))
  }

  function Stations(w: seq<Reached>): (ids: seq<Id>)
    ensures |ids| == |w|
    ensures forall i | 0 <= i < |w| :: ids[i] == w[i].station
  {
    if w == [] then [] else [w[0].station] + Stations(w[1..])
  }

  // The walk so far repeats no station and touches no ancestor.
  ghost predicate NoRevisit(chain: seq<Id>, w: seq<Reached>) {
    && (forall i | 0 <= i < |w| :: w[i].station !in chain)
    && (forall i, j | 0 <= i < j < |w| :: w[i].station != w[j].station)
  }

  // The last station of the walk is an ancestor or was visited before.
  ghost predicate ComesBack(net: Network, chain: seq<Id>, w: seq<Reached>)
    requires |w| > 0 && w[|w| - 1].station in net
  {
    var last := w[|w| - 1].station;
    net[last].Station? && (last in chain || exists i :: 0 <= i < |w| - 1 && w[i].station == last)
  }

  // What a station that forwards nothing answers.
  function Answer(net: Network, t: Tables, r: Reached): Result<Reached, McpError>
    requires r.station in net
  {
    var v, name := r.station, r.tool;
    if net[v].Foreign? || name in net[v].tools then Ok(r)
    else if v in t && name in t[v] && t[v][name] in net[v].subs then Err(McpError(INTERNAL_ERROR, t[v][name]))
    else Err(McpError(INVALID_PARAMS, name))
  }

  // A walk on which the call is decided: it came back, or nobody forwards further.
  ghost predicate Decided(net: Network, t: Tables, v: Id, name: Name, chain: seq<Id>, w: seq<Reached>) {
    && Walk(net, t, v, name, w)
    && NoRevisit(chain, w[..|w| - 1])
    && (ComesBack(net, chain, w) || Next(net, t, w[|w| - 1]) == None)
  }

  ghost function Verdict(net: Network, t: Tables, chain: seq<Id>, w: seq<Reached>): Result<Reached, McpError>
    requires |w| > 0 && w[|w| - 1].station in net
  {
    if ComesBack(net, chain, w) then Err(McpError(STATION_CYCLE, w[|w| - 1].station))
    else Answer(net, t, w[|w| - 1])
  }

  // Every call is decided within as many hops as there are station ids outside the
  // ancestors, on every network and for every content of the route tables, and its
  // result (a cycle error included) reaches the caller unchanged.
  lemma {:induction false} CallIsDecided(net: Network, t: Tables, v: Id, name: Name, chain: seq<Id>)
    returns (w: seq<Reached>)
    requires v in net
    ensures Decided(net, t, v, name, chain, w)
    ensures |w| - 1 <= Budget(net, chain)
    ensures Call(net, t, v, name, chain) == Verdict(net, t, chain, w)
    decreases Budget(net, chain)
  {
    w := [Reached(v, name)];
    var next := Next(net, t, w[0]);
    if next.Some? && v !in chain {
      BudgetDrops(net, chain, v);
      var u := CallIsDecided(net, t, next.value.station, next.value.tool, chain + [v]);
      w := w + u;
      PrependHop(net, t, v, name, chain, u);
    }
  }

  lemma PrependHop(net: Network, t: Tables, v: Id, name: Name, chain: seq<Id>, u: seq<Reached>)
    requires v in net && net[v].Station? && v !in chain
    requires |u| > 0 && Next(net, t, Reached(v, name)) == Some(u[0])
    requires Decided(net, t, u[0].station, u[0].tool, chain + [v], u)
    ensures Decided(net, t, v, name, chain, [Reached(v, name)] + u)
    ensures Verdict(net, t, chain, [Reached(v, name)] + u) == Verdict(net, t, chain + [v], u)
  {
    var w := [Reached(v, name)] + u;
    var last := w[|w| - 1].station;
    forall i | 0 <= i < |w| - 1
      ensures Next(net, t, w[i]) == Some(w[i + 1])
    {
      if i > 0 {
        assert Next(net, t, u[i - 1]) == Some(u[i]);
      }
    }
    forall i | 0 <= i < |w| - 1
      ensures w[i].station !in chain && forall j | i < j < |w| - 1 :: w[i].station != w[j].station
    {
      if i > 0 {
        assert u[i - 1] == u[..|u| - 1][i - 1];
      } else {
        assert forall j | 0 < j < |w| - 1 :: w[j] == u[..|u| - 1][j - 1];
      }
    }
    assert ComesBack(net, chain + [v], u) ==> ComesBack(net, chain, w) by {
      if ComesBack(net, chain + [v], u) && last !in chain {
        if last == v {
          assert w[0].station == last;
        } else {
          var i :| 0 <= i < |u| - 1 && u[i].station == last;
          assert w[i + 1].station == last;
        }
      }
    }
    assert ComesBack(net, chain, w) ==> ComesBack(net, chain + [v], u) by {
      if ComesBack(net, chain, w) && last !in chain + [v] {
        var i :| 0 <= i < |w| - 1 && w[i].station == last;
        assert u[i - 1].station == last;
      }
    }
  }

  // Following a walk that repeats nothing does not change the result of the call.
  lemma {:induction false} CallFollowsWalk(net: Network, t: Tables, v: Id, name: Name, chain: seq<Id>, w: seq<Reached>)
    requires Walk(net, t, v, name, w) && NoRevisit(chain, w[..|w| - 1])
    ensures Call(net, t, v, name, chain)
         == Call(net, t, w[|w| - 1].station, w[|w| - 1].tool, chain + Stations(w[..|w| - 1]))
    decreases |w|
  {
    if |w| == 1 {
      assert chain + Stations(w[..0]) == chain;
    } else {
      WalkTail(net, t, v, name, chain, w);
      CallHops(net, t, v, name, chain, w[1]);
      CallFollowsWalk(net, t, w[1].station, w[1].tool, chain + [v], w[1..]);
      StationsTail(chain, w);
    }
  }

  lemma CallHops(net: Network, t: Tables, v: Id, name: Name, chain: seq<Id>, r: Reached)
    requires v in net && v !in chain && Next(net, t, Reached(v, name)) == Some(r)
    ensures Call(net, t, v, name, chain) == Call(net, t, r.station, r.tool, chain + [v])
  {
  }

  lemma StationsTail(chain: seq<Id>, w: seq<Reached>)
    requires |w| > 1
    ensures chain + [w[0].station] + Stations(w[1..][..|w| - 2]) == chain + Stations(w[..|w| - 1])
  {
    assert w[1..][..|w| - 2] == w[..|w| - 1][1..];
  }

  lemma WalkTail(net: Network, t: Tables, v: Id, name: Name, chain: seq<Id>, w: seq<Reached>)
    requires Walk(net, t, v, name, w) && |w| > 1 && NoRevisit(chain, w[..|w| - 1])
    ensures Walk(net, t, w[1].station, w[1].tool, w[1..])
    ensures NoRevisit(chain + [v], w[1..][..|w| - 2])
    ensures w[0] == Reached(v, name) && v !in chain && Next(net, t, w[0]) == Some(w[1])
    ensures w[1..][|w| - 2] == w[|w| - 1]
  {
    var u, init := w[1..], w[..|w| - 1];
    forall i | 0 <= i < |u| - 1
      ensures Next(net, t, u[i]) == Some(u[i + 1])
    {
      assert Next(net, t, w[i + 1]) == Some(w[i + 2]);
    }
    assert forall i | 0 <= i < |u| - 1 :: u[i] == init[i + 1];
    assert init[0] == w[0];
  }

  // A call from outside fails with the cycle error if and only if the routes lead it
  // back to a station it has already been at.
  lemma CycleErrorIffRoutesComeBack(net: Network, t: Tables, v: Id, name: Name)
    requires v in net
    ensures (Call(net, t, v, name, []).Err? && Call(net, t, v, name, []).error.code == STATION_CYCLE)
        <==> exists w :: Walk(net, t, v, name, w) && ComesBack(net, [], w)
  {
    var d := CallIsDecided(net, t, v, name, []);
    forall w: seq<Reached> | Walk(net, t, v, name, w) && ComesBack(net, [], w)
      ensures Call(net, t, v, name, []) .Err? && Call(net, t, v, name, []).error.code == STATION_CYCLE
    {
      var k := FirstReturn(net, t, v, name, w);
      var u := w[..k + 1];
      assert u[..|u| - 1] == w[..k];
      CallFollowsWalk(net, t, v, name, [], u);
      var i :| 0 <= i < k && w[i].station == w[k].station;
      assert Stations(w[..k])[i] == w[k].station;
      assert w[k].station in [] + Stations(u[..|u| - 1]);
      assert Next(net, t, w[i]) == Some(w[i + 1]);
    }
  }

  lemma FirstReturn(net: Network, t: Tables, v: Id, name: Name, w: seq<Reached>) returns (k: nat)
    requires Walk(net, t, v, name, w) && ComesBack(net, [], w)
    ensures 0 < k < |w| && NoRevisit([], w[..k])
    ensures exists i :: 0 <= i < k && w[i].station == w[k].station
  {
    k := 0;
    while !exists i :: 0 <= i < k && w[i].station == w[k].station
      invariant 0 <= k < |w|
      invariant forall i, j | 0 <= i < j < k :: w[i].station != w[j].station
      decreases |w| - k
    {
      k := k + 1;
    }
  }

  // A call runs a tool exactly where a walk without repetition arrives at it.
  lemma CallRunsIffWalkArrives(net: Network, t: Tables, v: Id, name: Name, chain: seq<Id>, r: Reached)
    requires v in net
    ensures Call(net, t, v, name, chain) == Ok(r) <==>
            exists w :: && Walk(net, t, v, name, w) && NoRevisit(chain, w[..|w| - 1]) && !ComesBack(net, chain, w)
                        && w[|w| - 1] == r && (net[r.station].Foreign? || r.tool in net[r.station].tools)
  {
    var d := CallIsDecided(net, t, v, name, chain);
    forall w: seq<Reached> | && Walk(net, t, v, name, w) && NoRevisit(chain, w[..|w| - 1]) && !ComesBack(net, chain, w)
               && w[|w| - 1] == r && (net[r.station].Foreign? || r.tool in net[r.station].tools)
      ensures Call(net, t, v, name, chain) == Ok(r)
    {
      CallFollowsWalk(net, t, v, name, chain, w);
      assert net[r.station].Station? ==> r.station !in chain + Stations(w[..|w| - 1]);
    }
  }
}
