// What a listing contains, for every network, cyclic or not, and every order
// in which the stations walk their children.
module StationListing {
  import opened Wrappers
  import opened StationNetwork

  function Names(net: Network, order: Order, v: Id, chain: seq<Id>): set<Name>
    requires v in net
  {
    match Listing(net, order, v, chain)
    case Ok(listing) => listing.Keys
    case Err(_) => {}
  }

  // The tools a peer has of its own.
  function NativeNames(p: Peer): set<Name> {
    match p
    case Foreign(listed) => set t | t in listed :: t.name
    case Station(tools, _) => tools.Keys
  }

  ghost predicate HasEdge(net: Network, u: Id, w: Id) {
    u in net && net[u].Station? && w in net[u].subs
  }

  // A path of answering peers from v that repeats none and visits no station of `chain`.
  ghost predicate SimplePath(net: Network, v: Id, chain: seq<Id>, p: seq<Id>) {
    && |p| > 0 && p[0] == v
    && (forall i | 0 <= i < |p| :: p[i] in net && (net[p[i]].Station? ==> p[i] !in chain))
    && (forall i | 0 <= i < |p| - 1 :: HasEdge(net, p[i], p[i + 1]))
    && (forall i, j | 0 <= i < j < |p| :: p[i] != p[j])
  }

  // The prefixes of the edges along a path, outermost first.
  function PrefixAlong(net: Network, p: seq<Id>): string {
    if |p| <= 1 then ""
    else EdgePrefix(net, p[0], p[1]) + PrefixAlong(net, p[1..])
  }

  function EdgePrefix(net: Network, u: Id, w: Id): string {
    if u in net && net[u].Station? && w in net[u].subs && net[u].subs[w].prefix.Some?
    then net[u].subs[w].prefix.value
    else ""
  }

  // Tool n of the last station of path p is offered at v under name x.
  ghost predicate Offers(net: Network, v: Id, chain: seq<Id>, x: Name, p: seq<Id>, n: Name) {
    SimplePath(net, v, chain, p) && n in NativeNames(net[p[|p| - 1]]) && x == PrefixAlong(net, p) + n
  }

  // The names listed at v under the ancestors `chain` are exactly the native names
  // at the ends of the simple paths from v that avoid `chain`, each behind its prefixes.
  lemma ListedNamesAreSimplePaths(net: Network, order: Order, v: Id, chain: seq<Id>, x: Name)
    requires v in net && ValidOrder(net, order)
    ensures x in Names(net, order, v, chain) <==> exists p, n :: Offers(net, v, chain, x, p, n)
  {
    if x in Names(net, order, v, chain) {
      var p, n := ListedHasPath(net, order, v, chain, x);
    }
    forall p, n | Offers(net, v, chain, x, p, n)
      ensures x in Names(net, order, v, chain)
    {
      PathIsListed(net, order, v, chain, p, n);
    }
  }

  // Consequence: no iteration order changes the set of names.
  lemma ListedNamesIgnoreOrder(net: Network, order: Order, order': Order, v: Id, chain: seq<Id>)
    requires v in net && ValidOrder(net, order) && ValidOrder(net, order')
    ensures Names(net, order, v, chain) == Names(net, order', v, chain)
  {
    forall x
      ensures x in Names(net, order, v, chain) <==> x in Names(net, order', v, chain)
    {
      ListedNamesAreSimplePaths(net, order, v, chain, x);
      ListedNamesAreSimplePaths(net, order', v, chain, x);
    }
  }

  // ----- one station -----

  // x comes from the child c.
  ghost predicate FromChild(net: Network, order: Order, subs: map<Id, Sub>, chain: seq<Id>, c: Id, x: Name) {
    c in subs && c in net && exists m :: m in Names(net, order, c, chain) && x == subs[c].GlobalName(m)
  }

  lemma AbsorbNames(acc: Gathered, c: Id, sub: Sub, listing: map<Name, Tool>)
    ensures Absorb(acc, c, sub, listing).tools.Keys == acc.tools.Keys + GlobalNames(sub, listing)
  {
    assert forall x | x in GlobalNames(sub, listing) :: sub.LocalName(x) in listing;
  }

  lemma {:induction false} GatherNames(net: Network, order: Order, subs: map<Id, Sub>, chain: seq<Id>, todo: seq<Id>,
                                       acc: Gathered, x: Name)
    ensures x in Gather(net, order, subs, chain, todo, acc).tools <==>
            x in acc.tools || exists c :: c in todo && FromChild(net, order, subs, chain, c, x)
    decreases |todo|
  {
    if todo != [] {
      var c := todo[0];
      var acc' := GatherOne(net, order, subs, chain, c, acc);
      if c in subs && c in net && Listing(net, order, c, chain).Ok? {
        AbsorbNames(acc, c, subs[c], Listing(net, order, c, chain).value);
      }
      assert x in acc'.tools <==> x in acc.tools || FromChild(net, order, subs, chain, c, x);
      GatherNames(net, order, subs, chain, todo[1..], acc', x);
      assert forall d :: d in todo <==> d == c || d in todo[1..];
    }
  }

  lemma FirstOfNameNames(tools: seq<Tool>)
    ensures FirstOfName(tools).Keys == NativeNames(Foreign(tools))
  {
    if tools != [] {
      FirstOfNameNames(tools[1..]);
    }
  }

  lemma FirstOfNameKeepsName(tools: seq<Tool>, n: Name)
    requires n in FirstOfName(tools)
    ensures FirstOfName(tools)[n].name == n
  {
    if tools[0].name != n {
      FirstOfNameKeepsName(tools[1..], n);
    }
  }

  // ----- soundness: every listed name has a path -----

  lemma {:induction false} ListedHasPath(net: Network, order: Order, v: Id, chain: seq<Id>, x: Name)
    returns (p: seq<Id>, n: Name)
    requires v in net && ValidOrder(net, order) && x in Names(net, order, v, chain)
    ensures Offers(net, v, chain, x, p, n)
    decreases Budget(net, chain)
  {
    p, n := [v], x;
    match net[v]
    case Foreign(listed) => FirstOfNameNames(listed);
    case Station(tools, subs) =>
      if x !in tools {
        BudgetDrops(net, chain, v);
        var c, m := ListedByChild(net, order, v, chain, x);
        var q;
        q, n := ListedHasPath(net, order, c, chain + [v], m);
        p := [v] + q;
        OffersLift(net, v, chain, c, m, q, n);
      }
  }

  lemma ListedByChild(net: Network, order: Order, v: Id, chain: seq<Id>, x: Name) returns (c: Id, m: Name)
    requires v in net && net[v].Station? && ValidOrder(net, order)
    requires x in Names(net, order, v, chain) && x !in net[v].tools
    ensures v !in chain && HasEdge(net, v, c) && c in net
    ensures m in Names(net, order, c, chain + [v]) && x == net[v].subs[c].GlobalName(m)
  {
    var subs, chain' := net[v].subs, chain + [v];
    GatherNames(net, order, subs, chain', order(v, chain), Gathered(net[v].tools, map[]), x);
    c :| c in order(v, chain) && FromChild(net, order, subs, chain', c, x);
    m :| m in Names(net, order, c, chain') && x == subs[c].GlobalName(m);
  }

  lemma OffersLift(net: Network, v: Id, chain: seq<Id>, c: Id, m: Name, q: seq<Id>, n: Name)
    requires HasEdge(net, v, c) && v !in chain && Offers(net, c, chain + [v], m, q, n)
    ensures Offers(net, v, chain, net[v].subs[c].GlobalName(m), [v] + q, n)
    ensures ([v] + q)[|q|] == q[|q| - 1]
  {
    PathExtends(net, v, chain, c, q);
    assert PrefixAlong(net, [v] + q) + n == EdgePrefix(net, v, c) + (PrefixAlong(net, q) + n);
  }

  lemma PathExtends(net: Network, v: Id, chain: seq<Id>, c: Id, q: seq<Id>)
    requires v in net && net[v].Station? && v !in chain && c in net[v].subs
    requires SimplePath(net, c, chain + [v], q)
    ensures SimplePath(net, v, chain, [v] + q)
    ensures PrefixAlong(net, [v] + q) == EdgePrefix(net, v, c) + PrefixAlong(net, q)
  {
    var p := [v] + q;
    assert p[1..] == q;
    forall i | 0 <= i < |p| - 1
      ensures HasEdge(net, p[i], p[i + 1])
    {
      if i > 0 {
        assert HasEdge(net, q[i - 1], q[i]);
      }
    }
    assert forall i | 0 <= i < |q| :: q[i] != v;
  }

  // ----- completeness: every path is listed -----

  lemma {:induction false} PathIsListed(net: Network, order: Order, v: Id, chain: seq<Id>, p: seq<Id>, n: Name)
    requires v in net && ValidOrder(net, order)
    requires SimplePath(net, v, chain, p) && n in NativeNames(net[p[|p| - 1]])
    ensures PrefixAlong(net, p) + n in Names(net, order, v, chain)
    decreases |p|
  {
    if |p| > 1 {
      var c, q := p[1], p[1..];
      PathTail(net, v, chain, p);
      PathIsListed(net, order, c, chain + [v], q, n);
      ListedThroughChild(net, order, v, chain, c, PrefixAlong(net, q) + n);
      PrefixStep(net, p, n);
    } else {
      NativeIsListed(net, order, v, chain, n);
      assert PrefixAlong(net, p) + n == n;
    }
  }

  lemma {:induction false} PrefixStep(net: Network, p: seq<Id>, n: Name)
    requires |p| > 1 && HasEdge(net, p[0], p[1])
    ensures PrefixAlong(net, p) + n == net[p[0]].subs[p[1]].GlobalName(PrefixAlong(net, p[1..]) + n)
  {
    assert EdgePrefix(net, p[0], p[1]) + PrefixAlong(net, p[1..]) + n ==
           EdgePrefix(net, p[0], p[1]) + (PrefixAlong(net, p[1..]) + n);
  }

  lemma {:induction false} NativeIsListed(net: Network, order: Order, v: Id, chain: seq<Id>, n: Name)
    requires v in net && n in NativeNames(net[v]) && (net[v].Station? ==> v !in chain)
    ensures n in Names(net, order, v, chain)
  {
    match net[v]
    case Foreign(listed) => FirstOfNameNames(listed);
    case Station(tools, subs) =>
      GatherNames(net, order, subs, chain + [v], order(v, chain), Gathered(tools, map[]), n);
  }

  lemma {:induction false} ListedThroughChild(net: Network, order: Order, v: Id, chain: seq<Id>, c: Id, m: Name)
    requires HasEdge(net, v, c) && c in net && v !in chain && ValidOrder(net, order)
    requires m in Names(net, order, c, chain + [v])
    ensures net[v].subs[c].GlobalName(m) in Names(net, order, v, chain)
  {
    var x := net[v].subs[c].GlobalName(m);
    GatherNames(net, order, net[v].subs, chain + [v], order(v, chain), Gathered(net[v].tools, map[]), x);
    assert FromChild(net, order, net[v].subs, chain + [v], c, x);
    assert c in order(v, chain);
  }

  lemma {:induction false} PathTail(net: Network, v: Id, chain: seq<Id>, p: seq<Id>)
    requires SimplePath(net, v, chain, p) && |p| > 1
    ensures p[0] == v && v !in chain && HasEdge(net, v, p[1]) && p[1] in net
    ensures SimplePath(net, p[1], chain + [v], p[1..]) && p[1..][|p| - 2] == p[|p| - 1]
  {
    var q := p[1..];
    assert HasEdge(net, p[0], p[1]);
    forall i | 0 <= i < |q| - 1
      ensures HasEdge(net, q[i], q[i + 1])
    {
      assert HasEdge(net, p[i + 1], p[i + 2]);
    }
  }
}
