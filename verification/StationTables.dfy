// The route tables a root listing leaves behind: each station keeps the routes of the last
// chain it was asked under, on every network, cyclic or not.
module StationTables {
  import opened Wrappers
  import opened StationNetwork
  import opened StationListing
  import opened StationCalling

  // ----- the chains of a listing -----

  ghost predicate EdgeWalk(net: Network, p: seq<Id>) {
    |p| > 0 && forall i | 0 <= i < |p| - 1 :: HasEdge(net, p[i], p[i + 1])
  }

  lemma {:induction false} WalkAppend(net: Network, chain: seq<Id>, v: Id, c: Id)
    requires EdgeWalk(net, chain + [v]) && HasEdge(net, v, c)
    ensures EdgeWalk(net, chain + [v] + [c])
  {
    var p, q := chain + [v], chain + [v] + [c];
    forall i | 0 <= i < |q| - 1
      ensures HasEdge(net, q[i], q[i + 1])
    {
      if i < |p| - 1 {
        assert HasEdge(net, p[i], p[i + 1]);
      }
    }
  }

  lemma {:induction false} WalkTail(net: Network, p: seq<Id>, k: nat)
    requires EdgeWalk(net, p) && k < |p|
    ensures EdgeWalk(net, p[k..])
  {
    var q := p[k..];
    forall i | 0 <= i < |q| - 1
      ensures HasEdge(net, q[i], q[i + 1])
    {
      assert HasEdge(net, p[k + i], p[k + i + 1]);
    }
  }

  // A listing of the root asks the last station of p with the stations before it as ancestors.
  ghost predicate Asked(net: Network, root: Id, p: seq<Id>) {
    && EdgeWalk(net, p) && p[0] == root && (forall i, j | 0 <= i < j < |p| :: p[i] != p[j])
    && Last(p) in net && net[Last(p)].Station?
  }

  function Last(p: seq<Id>): Id
    requires |p| > 0
  {
    p[|p| - 1]
  }

  lemma {:induction false} AskedNext(net: Network, root: Id, chain: seq<Id>, v: Id, c: Id)
    requires Asked(net, root, chain + [v]) && HasEdge(net, v, c) && c in net && net[c].Station? && c !in chain + [v]
    ensures Asked(net, root, chain + [v] + [c])
  {
    WalkAppend(net, chain, v, c);
    var p := chain + [v] + [c];
    assert p[0] == (chain + [v])[0];
    forall i, j | 0 <= i < j < |p|
      ensures p[i] != p[j]
    {
      assert i < |p| - 1 && p[i] == (chain + [v])[i];
    }
  }

  // Every station on the way was asked as well.
  lemma {:induction false} AskedPrefix(net: Network, root: Id, p: seq<Id>, n: nat)
    requires Asked(net, root, p) && 0 < n <= |p|
    ensures Asked(net, root, p[..n])
  {
    var q := p[..n];
    forall i | 0 <= i < |q| - 1
      ensures HasEdge(net, q[i], q[i + 1])
    {
      assert HasEdge(net, p[i], p[i + 1]);
    }
    assert n < |p| ==> HasEdge(net, p[n - 1], p[n]);
  }

  // ----- the last chain -----

  // The chain under which u is asked last while v, asked under `chain`, makes its listing.
  function LastAsked(net: Network, order: Order, v: Id, chain: seq<Id>, u: Id): (r: Option<seq<Id>>)
    requires v in net
    ensures r.Some? ==> u in net && net[u].Station? && u !in r.value
    decreases Budget(net, chain), 0
  {
    if net[v].Foreign? || v in chain then None
    else if v == u then Some(chain)
    else
      BudgetDrops(net, chain, v);
      LastAskedAll(net, order, net[v].subs, chain + [v], order(v, chain), u)
  }

  function LastAskedAll(net: Network, order: Order, subs: map<Id, Sub>, chain: seq<Id>, todo: seq<Id>, u: Id)
    : (r: Option<seq<Id>>)
    ensures r.Some? ==> u in net && net[u].Station? && u !in r.value
    decreases Budget(net, chain), 1 + |todo|
  {
    if todo == [] then None
    else
      var later := LastAskedAll(net, order, subs, chain, todo[1..], u);
      if later.Some? || todo[0] !in subs || todo[0] !in net then later
      else LastAsked(net, order, todo[0], chain, u)
  }

  function TableOf(t: Tables, u: Id): Option<map<Name, Id>> { if u in t then Some(t[u]) else None }

  // The routes stored under a chain, or the old table where none was stored.
  function StoredUnder(net: Network, order: Order, t: Tables, u: Id, chain: Option<seq<Id>>): Option<map<Name, Id>>
    requires chain.Some? ==> u in net && net[u].Station?
  {
    if chain.Some? then Some(Routes(net, order, u, chain.value)) else TableOf(t, u)
  }

  // After a listing every station holds the routes of the last chain it was asked under,
  // and a station that was not asked holds what it held before.
  lemma {:induction false} TableIsLast(net: Network, order: Order, v: Id, chain: seq<Id>, t: Tables, u: Id)
    requires v in net
    ensures TableOf(TablesAfter(net, order, v, chain, t), u) ==
            StoredUnder(net, order, t, u, LastAsked(net, order, v, chain, u))
    decreases Budget(net, chain), 0
  {
    if net[v].Station? && v !in chain {
      BudgetDrops(net, chain, v);
      TableIsLastOfAll(net, order, net[v].subs, chain + [v], order(v, chain), t, u);
    }
  }

  lemma {:induction false} TableIsLastOfAll(net: Network, order: Order, subs: map<Id, Sub>, chain: seq<Id>,
                                            todo: seq<Id>, t: Tables, u: Id)
    ensures TableOf(TablesAfterAll(net, order, subs, chain, todo, t), u) ==
            StoredUnder(net, order, t, u, LastAskedAll(net, order, subs, chain, todo, u))
    decreases Budget(net, chain), 1 + |todo|
  {
    if todo != [] {
      var t' := t;
      if todo[0] in subs && todo[0] in net {
        TableIsLast(net, order, todo[0], chain, t, u);
        t' := TablesAfter(net, order, todo[0], chain, t);
      }
      TableIsLastOfAll(net, order, subs, chain, todo[1..], t', u);
    }
  }

  // The last chain is one the station was asked under.
  lemma {:induction false} LastAskedIsAsked(net: Network, order: Order, root: Id, v: Id, chain: seq<Id>, u: Id)
    requires Asked(net, root, chain + [v]) && v in net && LastAsked(net, order, v, chain, u).Some?
    ensures Asked(net, root, LastAsked(net, order, v, chain, u).value + [u])
    decreases Budget(net, chain), 0
  {
    if v != u {
      BudgetDrops(net, chain, v);
      LastOfAllIsAsked(net, order, root, v, chain, order(v, chain), u);
    }
  }

  lemma {:induction false} LastOfAllIsAsked(net: Network, order: Order, root: Id, v: Id, chain: seq<Id>, todo: seq<Id>,
                                            u: Id)
    requires Asked(net, root, chain + [v]) && v in net && net[v].Station?
    requires LastAskedAll(net, order, net[v].subs, chain + [v], todo, u).Some?
    ensures Asked(net, root, LastAskedAll(net, order, net[v].subs, chain + [v], todo, u).value + [u])
    decreases Budget(net, chain + [v]), 1 + |todo|
  {
    if LastAskedAll(net, order, net[v].subs, chain + [v], todo[1..], u).Some? {
      LastOfAllIsAsked(net, order, root, v, chain, todo[1..], u);
    } else {
      AskedNext(net, root, chain, v, todo[0]);
      LastAskedIsAsked(net, order, root, todo[0], chain + [v], u);
    }
  }

  // A station that is asked has a last chain.
  lemma {:induction false} AskedHasLast(net: Network, order: Order, root: Id, v: Id, chain: seq<Id>, q: seq<Id>)
    requires ValidOrder(net, order) && Asked(net, root, q) && chain + [v] <= q && v in net
    ensures LastAsked(net, order, v, chain, Last(q)).Some?
    decreases |q| - |chain|
  {
    var p := chain + [v];
    AskedPrefix(net, root, q, |p|);
    assert q[..|p|] == p && Last(p) == v;
    NotAnAncestor(net, root, chain, v);
    if |q| > |p| {
      var c := q[|p|];
      AskedPrefix(net, root, q, |p| + 1);
      assert q[..|p| + 1] == p + [c];
      assert HasEdge(net, q[|p| - 1], q[|p|]);
      AskedHasLast(net, order, root, c, p, q);
      LastOfAllHas(net, order, net[v].subs, p, order(v, chain), c, Last(q));
    }
  }

  lemma {:induction false} NotAnAncestor(net: Network, root: Id, chain: seq<Id>, v: Id)
    requires Asked(net, root, chain + [v])
    ensures v !in chain && v in net && net[v].Station?
  {
    var p := chain + [v];
    assert Last(p) == v;
    assert forall i | 0 <= i < |chain| :: chain[i] == p[i] && p[i] != p[|chain|];
  }

  lemma {:induction false} LastOfAllHas(net: Network, order: Order, subs: map<Id, Sub>, chain: seq<Id>, todo: seq<Id>,
                                        c: Id, u: Id)
    requires c in todo && c in subs && c in net && LastAsked(net, order, c, chain, u).Some?
    ensures LastAskedAll(net, order, subs, chain, todo, u).Some?
    decreases |todo|
  {
    if c in todo[1..] {
      LastOfAllHas(net, order, subs, chain, todo[1..], c, u);
    }
  }

  // ----- the listing's own way, and the call's -----

  // Where the routes that u stores under `chain` send a call of m.
  function Hop(net: Network, order: Order, u: Id, chain: seq<Id>, m: Name): (next: Option<Reached>)
    requires u in net
    ensures next.Some? ==> HasEdge(net, u, next.value.station) && next.value.station in net && u !in chain
  {
    if net[u].Foreign? || u in chain then None
    else Next(net, map[u := Routes(net, order, u, chain)], Reached(u, m))
  }

  // The way on which the listing of u under `chain` came by the name m.
  function Trail(net: Network, order: Order, u: Id, chain: seq<Id>, m: Name): (w: seq<Reached>)
    requires u in net
    ensures |w| > 0 && w[0] == Reached(u, m)
    decreases Budget(net, chain)
  {
    var next := Hop(net, order, u, chain, m);
    if next.None? then [Reached(u, m)]
    else
      BudgetDrops(net, chain, u);
      [Reached(u, m)] + Trail(net, order, next.value.station, chain + [u], next.value.tool)
  }

  // On that way, no station was asked again later under a chain whose routes send the name
  // elsewhere.
  predicate Undisturbed(net: Network, order: Order, root: Id, u: Id, chain: seq<Id>, m: Name)
    requires root in net && u in net
    decreases Budget(net, chain)
  {
    var next := Hop(net, order, u, chain, m);
    if next.None? then true
    else
      BudgetDrops(net, chain, u);
      var last := LastAsked(net, order, root, [], u);
      && last.Some? && Hop(net, order, u, last.value, m) == next
      && Undisturbed(net, order, root, next.value.station, chain + [u], next.value.tool)
  }

  // A place a call can be at after a root listing: a third party, a station it has been at
  // already, or one that was asked under exactly that chain.
  ghost predicate OnTheWay(net: Network, root: Id, u: Id, chain: seq<Id>) {
    u in net && (net[u].Station? && u !in chain ==> Asked(net, root, chain + [u]))
  }

  lemma {:induction false} NextOnTheWay(net: Network, root: Id, u: Id, chain: seq<Id>, c: Id)
    requires OnTheWay(net, root, u, chain) && HasEdge(net, u, c) && c in net && u !in chain
    ensures OnTheWay(net, root, c, chain + [u])
  {
    if net[c].Station? && c !in chain + [u] {
      AskedNext(net, root, chain, u, c);
    }
  }

  // After a root listing a station forwards by the routes of its last chain.
  lemma {:induction false} NextIsLastHop(net: Network, order: Order, root: Id, t: Tables, u: Id, chain: seq<Id>,
                                         m: Name)
    requires ValidOrder(net, order) && root in net && OnTheWay(net, root, u, chain)
    requires net[u].Station? && u !in chain
    ensures var last := LastAsked(net, order, root, [], u);
      && last.Some? && Asked(net, root, last.value + [u])
      && Next(net, TablesAfter(net, order, root, [], t), Reached(u, m)) == Hop(net, order, u, last.value, m)
  {
    var q := chain + [u];
    assert [] + [root] == [root] && [root] <= q && Last(q) == u;
    AskedPrefix(net, root, q, 1);
    assert q[..1] == [root];
    AskedHasLast(net, order, root, root, [], q);
    LastAskedIsAsked(net, order, root, root, [], u);
    TableIsLast(net, order, root, [], t, u);
  }

  // A call takes the way the listing came if and only if that way is undisturbed: on every
  // network, for every station and name, and from any stale tables.
  lemma {:induction false} TrailIsWalkedIff(net: Network, order: Order, root: Id, t: Tables, u: Id, chain: seq<Id>,
                                            m: Name)
    requires ValidOrder(net, order) && root in net && OnTheWay(net, root, u, chain)
    ensures Walk(net, TablesAfter(net, order, root, [], t), u, m, Trail(net, order, u, chain, m)) <==>
            Undisturbed(net, order, root, u, chain, m)
    decreases Budget(net, chain)
  {
    var next := Hop(net, order, u, chain, m);
    if next.Some? {
      var c, t' := next.value.station, TablesAfter(net, order, root, [], t);
      BudgetDrops(net, chain, u);
      NextOnTheWay(net, root, u, chain, c);
      NextIsLastHop(net, order, root, t, u, chain, m);
      TrailIsWalkedIff(net, order, root, t, c, chain + [u], next.value.tool);
      WalkCons(net, t', Reached(u, m), Trail(net, order, c, chain + [u], next.value.tool));
    }
  }

  lemma {:induction false} WalkCons(net: Network, t: Tables, r: Reached, w: seq<Reached>)
    requires r.station in net && |w| > 0
    ensures Walk(net, t, r.station, r.tool, [r] + w) <==>
            Next(net, t, r) == Some(w[0]) && Walk(net, t, w[0].station, w[0].tool, w)
  {
    var p := [r] + w;
    assert p[0] == r && p[1] == w[0];
    if Walk(net, t, r.station, r.tool, p) {
      assert Next(net, t, p[0]) == Some(p[1]);
      forall i | 0 <= i < |w|
        ensures w[i].station in net && (i < |w| - 1 ==> Next(net, t, w[i]) == Some(w[i + 1]))
      {
        assert w[i] == p[i + 1];
        assert i < |w| - 1 ==> Next(net, t, p[i + 1]) == Some(p[i + 2]);
      }
    }
    if Next(net, t, r) == Some(w[0]) && Walk(net, t, w[0].station, w[0].tool, w) {
      forall i | 0 <= i < |p| - 1
        ensures Next(net, t, p[i]) == Some(p[i + 1])
      {
        assert i > 0 ==> Next(net, t, w[i - 1]) == Some(w[i]);
      }
    }
  }

  lemma {:induction false} SameTable(net: Network, order: Order, root: Id, s: Tables, t: Tables, u: Id, chain: seq<Id>)
    requires ValidOrder(net, order) && root in net && OnTheWay(net, root, u, chain)
    requires net[u].Station? && u !in chain
    ensures var s', t' := TablesAfter(net, order, root, [], s), TablesAfter(net, order, root, [], t);
            u in s' && u in t' && s'[u] == t'[u]
  {
    NextIsLastHop(net, order, root, s, u, chain, "");
    TableIsLast(net, order, root, [], s, u);
    TableIsLast(net, order, root, [], t, u);
  }

  // What a call from the root answers after a listing does not depend on the tables there
  // were before it.
  lemma {:induction false} StaleTablesDoNotMatter(net: Network, order: Order, root: Id, s: Tables, t: Tables, u: Id,
                                                  chain: seq<Id>, m: Name)
    requires ValidOrder(net, order) && root in net && OnTheWay(net, root, u, chain)
    ensures Call(net, TablesAfter(net, order, root, [], s), u, m, chain) ==
            Call(net, TablesAfter(net, order, root, [], t), u, m, chain)
    decreases Budget(net, chain)
  {
    if net[u].Station? && u !in chain {
      var s', t' := TablesAfter(net, order, root, [], s), TablesAfter(net, order, root, [], t);
      BudgetDrops(net, chain, u);
      SameTable(net, order, root, s, t, u, chain);
      var next := Next(net, s', Reached(u, m));
      if next.Some? {
        NextOnTheWay(net, root, u, chain, next.value.station);
        StaleTablesDoNotMatter(net, order, root, s, t, next.value.station, chain + [u], next.value.tool);
      }
    }
  }
}
