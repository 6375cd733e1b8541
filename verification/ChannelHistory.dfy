// When the handlers succeed, in terms of the events alone: who is connected, who is a user of
// a messenger, and who owns a binding.
module ChannelHistory {
  import opened ChannelBinding
  import opened Wrappers

  // ----- who is connected -----

  function Connects(events: seq<Event>): nat {
    if events == [] then 0
    else Connects(events[..|events| - 1]) + if events[|events| - 1].Connect? then 1 else 0
  }

  // Connections are numbered from zero; this one was opened and has not been closed since.
  ghost predicate IsOpen(events: seq<Event>, c: ConnectId) {
    exists i :: OpensAt(events, i, c) && forall j | i < j < |events| :: events[j] != Close(c)
  }

  predicate OpensAt(events: seq<Event>, i: int, c: ConnectId) {
    0 <= i < |events| && events[i].Connect? && Connects(events[..i]) == c
  }

  lemma {:induction false} OpenNext(events: seq<Event>, e: Event, c: ConnectId)
    ensures IsOpen(events + [e], c) <==> (e.Connect? && c == Connects(events)) || (IsOpen(events, c) && e != Close(c))
  {
    var g := events + [e];
    assert g[..|events|] == events;
    assert forall i | 0 <= i < |events| :: g[..i] == events[..i] && g[i] == events[i];
    if e.Connect? && c == Connects(events) {
      assert OpensAt(g, |events|, c);
    }
    if IsOpen(events, c) && e != Close(c) {
      var i :| OpensAt(events, i, c) && forall j | i < j < |events| :: events[j] != Close(c);
      assert OpensAt(g, i, c);
    }
    if IsOpen(g, c) {
      var i :| OpensAt(g, i, c) && forall j | i < j < |g| :: g[j] != Close(c);
      if i < |events| {
        assert OpensAt(events, i, c) && g[|events|] == e;
        assert forall j | i < j < |events| :: g[j] == events[j];
      }
    }
  }

  // ----- who is a user -----

  ghost predicate IsRegistered(events: seq<Event>, m: MessengerId) {
    exists i :: 0 <= i < |events| && events[i].Register? && events[i].messenger == m
  }

  // The first registration of a messenger brings its users, others are added later.
  ghost predicate Adds(before: seq<Event>, e: Event, m: MessengerId, u: UserId) {
    || (e.Register? && e.messenger == m && u in e.users && !IsRegistered(before, m))
    || (e == AddUser(m, u) && IsRegistered(before, m))
  }

  // Added, and not dropped since.
  ghost predicate IsUser(events: seq<Event>, m: MessengerId, u: UserId) {
    exists i :: AddsAt(events, i, m, u) && forall j | i < j < |events| :: events[j] != DropUser(m, u)
  }

  ghost predicate AddsAt(events: seq<Event>, i: int, m: MessengerId, u: UserId) {
    0 <= i < |events| && Adds(events[..i], events[i], m, u)
  }

  lemma {:induction false} RegisteredNext(events: seq<Event>, e: Event, m: MessengerId)
    ensures IsRegistered(events + [e], m) <==> IsRegistered(events, m) || (e.Register? && e.messenger == m)
  {
    var g := events + [e];
    assert g[|events|] == e;
    if IsRegistered(events, m) {
      var i :| 0 <= i < |events| && events[i].Register? && events[i].messenger == m;
      assert g[i] == events[i];
    }
  }

  lemma {:induction false} UserNext(events: seq<Event>, e: Event, m: MessengerId, u: UserId)
    ensures IsUser(events + [e], m, u) <==> Adds(events, e, m, u) || (IsUser(events, m, u) && e != DropUser(m, u))
  {
    var g := events + [e];
    assert g[..|events|] == events;
    assert forall i | 0 <= i < |events| :: g[..i] == events[..i] && g[i] == events[i];
    if Adds(events, e, m, u) {
      assert AddsAt(g, |events|, m, u);
    }
    if IsUser(events, m, u) && e != DropUser(m, u) {
      var i :| AddsAt(events, i, m, u) && forall j | i < j < |events| :: events[j] != DropUser(m, u);
      assert AddsAt(g, i, m, u);
    }
    if IsUser(g, m, u) {
      var i :| AddsAt(g, i, m, u) && forall j | i < j < |g| :: g[j] != DropUser(m, u);
      if i < |events| {
        assert AddsAt(events, i, m, u) && g[|events|] == e;
        assert forall j | i < j < |events| :: g[j] == events[j];
      }
    }
  }

  // ----- the state is what the events say -----

  ghost predicate Follows(s: State, events: seq<Event>) {
    && s.nextConnect == Connects(events)
    && (forall c :: c in s.connects <==> IsOpen(events, c))
    && (forall m :: m in s.messengers <==> IsRegistered(events, m))
    && (forall m, u | m in s.messengers :: u in s.messengers[m].users <==> IsUser(events, m, u))
  }

  lemma {:induction false} StateFollowsEvents(events: seq<Event>)
    ensures Follows(After(events), events)
    decreases |events|
  {
    if events != [] {
      var init, e := events[..|events| - 1], events[|events| - 1];
      StateFollowsEvents(init);
      assert init + [e] == events;
      HandleFollows(After(init), init, e);
    }
  }

  lemma {:induction false} HandleFollows(s: State, events: seq<Event>, e: Event)
    requires Follows(s, events)
    ensures Follows(Handle(s, e).0, events + [e])
  {
    var s' := Handle(s, e).0;
    assert (events + [e])[..|events|] == events;
    forall c
      ensures c in s'.connects <==> IsOpen(events + [e], c)
    {
      OpenNext(events, e, c);
    }
    forall m
      ensures m in s'.messengers <==> IsRegistered(events + [e], m)
    {
      RegisteredNext(events, e, m);
    }
    forall m, u | m in s'.messengers
      ensures u in s'.messengers[m].users <==> IsUser(events + [e], m, u)
    {
      UsersFollow(s, events, e, m, u);
    }
  }

  lemma {:induction false} UsersFollow(s: State, events: seq<Event>, e: Event, m: MessengerId, u: UserId)
    requires Follows(s, events) && m in Handle(s, e).0.messengers
    ensures u in Handle(s, e).0.messengers[m].users <==> IsUser(events + [e], m, u)
  {
    UserNext(events, e, m, u);
    OnlyRegisteredHaveUsers(events, m, u);
    UsersMove(s, events, e, m, u);
  }

  lemma {:induction false} OnlyRegisteredHaveUsers(events: seq<Event>, m: MessengerId, u: UserId)
    ensures IsUser(events, m, u) ==> IsRegistered(events, m)
  {
    if IsUser(events, m, u) {
      var i :| AddsAt(events, i, m, u) && forall j | i < j < |events| :: events[j] != DropUser(m, u);
      if IsRegistered(events[..i], m) {
        var k :| 0 <= k < i && events[..i][k].Register? && events[..i][k].messenger == m;
        assert events[k].Register?;
      }
    }
  }

  lemma {:induction false} UsersMove(s: State, events: seq<Event>, e: Event, m: MessengerId, u: UserId)
    requires Follows(s, events) && m in Handle(s, e).0.messengers
    ensures u in Handle(s, e).0.messengers[m].users <==>
            Adds(events, e, m, u) || (m in s.messengers && u in s.messengers[m].users && e != DropUser(m, u))
  {
  }

  // ----- when the handlers succeed -----

  ghost predicate SomebodyElseOwns(events: seq<Event>, c: ConnectId, m: MessengerId, u: UserId) {
    exists d :: d != c && Owns(History(events), m, u, d)
  }

  // A bind succeeds exactly for an open connection, a user of the messenger, and a user that
  // nobody else owns; in that last case alone it is refused as bound already.
  lemma {:induction false} BindSucceedsIff(events: seq<Event>, c: ConnectId, m: MessengerId, u: UserId)
    ensures var r := Handle(After(events), Bind(c, m, u)).1;
            var admitted := IsOpen(events, c) && IsUser(events, m, u);
      && (r.Ok? <==> admitted && !SomebodyElseOwns(events, c, m, u))
      && (r == Err(UserAlreadyBound) <==> admitted && SomebodyElseOwns(events, c, m, u))
  {
    var s := After(events);
    AdmittedInState(events, c, m, u);
    SomebodyElseIsBound(events, c, m, u);
    BindInState(s, c, m, u);
  }

  predicate Admitted(s: State, c: ConnectId, m: MessengerId, u: UserId) {
    c in s.connects && m in s.messengers && u in s.messengers[m].users
  }

  predicate ElseBound(s: State, c: ConnectId, m: MessengerId, u: UserId) {
    m in s.messengers && u in s.messengers[m].bound && s.messengers[m].bound[u] != c
  }

  lemma {:induction false} BindInState(s: State, c: ConnectId, m: MessengerId, u: UserId)
    ensures var r := Handle(s, Bind(c, m, u)).1;
      && (r.Ok? <==> Admitted(s, c, m, u) && !ElseBound(s, c, m, u))
      && (r == Err(UserAlreadyBound) <==> Admitted(s, c, m, u) && ElseBound(s, c, m, u))
  {
  }

  lemma {:induction false} AdmittedInState(events: seq<Event>, c: ConnectId, m: MessengerId, u: UserId)
    ensures Admitted(After(events), c, m, u) <==> IsOpen(events, c) && IsUser(events, m, u)
  {
    StateFollowsEvents(events);
    OnlyRegisteredHaveUsers(events, m, u);
  }

  lemma {:induction false} SomebodyElseIsBound(events: seq<Event>, c: ConnectId, m: MessengerId, u: UserId)
    ensures ElseBound(After(events), c, m, u) <==> SomebodyElseOwns(events, c, m, u)
  {
    var s := After(events);
    if ElseBound(s, c, m, u) {
      BindingFollowsHistory(events, m, u, s.messengers[m].bound[u]);
    }
    if SomebodyElseOwns(events, c, m, u) {
      var d :| d != c && Owns(History(events), m, u, d);
      BindingFollowsHistory(events, m, u, d);
    }
  }

  // A message is accepted exactly from the owner, and refused as not bound to the sender
  // exactly when somebody else owns the user.
  lemma {:induction false} SendSucceedsIff(events: seq<Event>, c: ConnectId, m: MessengerId, u: UserId)
    ensures var r := AuthorizeSend(After(events), c, m, u);
      && (r.Ok? <==> Owns(History(events), m, u, c))
      && (r == Err(UserNotBound) <==> SomebodyElseOwns(events, c, m, u))
  {
    BindingFollowsHistory(events, m, u, c);
    SomebodyElseIsBound(events, c, m, u);
  }

  // An unbind succeeds exactly for the owner.
  lemma {:induction false} UnbindSucceedsIff(events: seq<Event>, c: ConnectId, m: MessengerId, u: UserId)
    ensures Handle(After(events), Unbind(c, m, u)).1.Ok? <==> Owns(History(events), m, u, c)
  {
    BindingFollowsHistory(events, m, u, c);
  }

  // A close succeeds exactly for an open connection, and a removal for a user with an owner.
  lemma {:induction false} CloseSucceedsIff(events: seq<Event>, c: ConnectId)
    ensures Handle(After(events), Close(c)).1.Ok? <==> IsOpen(events, c)
  {
    StateFollowsEvents(events);
  }

  lemma {:induction false} RemovalSucceedsIff(events: seq<Event>, m: MessengerId, u: UserId)
    ensures Handle(After(events), UserRemoved(m, u)).1.Ok? <==> exists c :: Owns(History(events), m, u, c)
  {
    var s := After(events);
    if m in s.messengers && u in s.messengers[m].bound {
      BindingFollowsHistory(events, m, u, s.messengers[m].bound[u]);
    }
    if exists c :: Owns(History(events), m, u, c) {
      var c :| Owns(History(events), m, u, c);
      BindingFollowsHistory(events, m, u, c);
    }
  }
}
