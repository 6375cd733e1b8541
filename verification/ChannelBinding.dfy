// Which connection speaks for which user: the handlers of the channel server, one atomic
// step each, and who owns a binding in terms of what has happened.
module ChannelBinding {
  import opened Wrappers

  type ConnectId = nat
  type MessengerId = string
  type UserId = string

  // A messenger's configured users and the bindings user -> connection.
  datatype Messenger = Messenger(users: set<UserId>, bound: map<UserId, ConnectId>)

  datatype State = State(connects: set<ConnectId>, nextConnect: ConnectId, messengers: map<MessengerId, Messenger>)

  datatype Error =
    | Internal | MessengerNotFound | MessengerAlreadyRegistered | UserNotFound | UserNotBound | UserAlreadyBound
    | ConnectNotFound

  datatype Event =
    | Connect
    | Register(messenger: MessengerId, users: set<UserId>)
    | AddUser(messenger: MessengerId, user: UserId)
    | DropUser(messenger: MessengerId, user: UserId)
    | Bind(connect: ConnectId, messenger: MessengerId, user: UserId)
    | Unbind(connect: ConnectId, messenger: MessengerId, user: UserId)
    | Close(connect: ConnectId)
    | UserRemoved(messenger: MessengerId, user: UserId)

  const START := State({}, 0, map[])

  function SetBound(s: State, m: MessengerId, bound: map<UserId, ConnectId>): State
    requires m in s.messengers
  {
    s.(messengers := s.messengers[m := s.messengers[m].(bound := bound)])
  }

  function Swept(bound: map<UserId, ConnectId>, c: ConnectId): map<UserId, ConnectId> {
    map u | u in bound && bound[u] != c :: bound[u]
  }

  // The user's binding becomes c's unless somebody else holds it.
  function HandleBind(s: State, c: ConnectId, m: MessengerId, u: UserId): (State, Result<(), Error>) {
    if c !in s.connects then (s, Err(Internal))
    else if m !in s.messengers then (s, Err(MessengerNotFound))
    else if u !in s.messengers[m].users then (s, Err(UserNotFound))
    else
      var bound := s.messengers[m].bound;
      var bound' := if u in bound then bound else bound[u := c];
      (SetBound(s, m, bound'), if bound'[u] != c then Err(UserAlreadyBound) else Ok(()))
  }

  function HandleUnbind(s: State, c: ConnectId, m: MessengerId, u: UserId): (State, Result<(), Error>) {
    if c !in s.connects then (s, Err(Internal))
    else if m !in s.messengers then (s, Err(MessengerNotFound))
    else if u !in s.messengers[m].bound then (s, Err(UserNotBound))
    else if s.messengers[m].bound[u] != c then (s, Err(UserAlreadyBound))
    else (SetBound(s, m, s.messengers[m].bound - {u}), Ok(()))
  }

  function HandleClose(s: State, c: ConnectId): (State, Result<(), Error>) {
    if c !in s.connects then (s, Err(ConnectNotFound))
    else
      (s.(connects := s.connects - {c},
          messengers := map m | m in s.messengers :: s.messengers[m].(bound := Swept(s.messengers[m].bound, c))),
       Ok(()))
  }

  function HandleUserRemoved(s: State, m: MessengerId, u: UserId): (State, Result<(), Error>) {
    if m !in s.messengers then (s, Err(MessengerNotFound))
    else if u !in s.messengers[m].bound then (s, Err(UserNotFound))
    else
      var c := s.messengers[m].bound[u];
      (SetBound(s, m, s.messengers[m].bound - {u}), if c in s.connects then Ok(()) else Err(ConnectNotFound))
  }

  function Handle(s: State, e: Event): (State, Result<(), Error>) {
    match e
    case Connect => (s.(connects := s.connects + {s.nextConnect}, nextConnect := s.nextConnect + 1), Ok(()))
    case Register(m, users) =>
      if m in s.messengers then (s, Err(MessengerAlreadyRegistered))
      else (s.(messengers := s.messengers[m := Messenger(users, map[])]), Ok(()))
    case AddUser(m, u) =>
      if m !in s.messengers then (s, Err(MessengerNotFound))
      else (s.(messengers := s.messengers[m := s.messengers[m].(users := s.messengers[m].users + {u})]), Ok(()))
    case DropUser(m, u) =>
      if m !in s.messengers then (s, Err(MessengerNotFound))
      else (s.(messengers := s.messengers[m := s.messengers[m].(users := s.messengers[m].users - {u})]), Ok(()))
    case Bind(c, m, u) => HandleBind(s, c, m, u)
    case Unbind(c, m, u) => HandleUnbind(s, c, m, u)
    case Close(c) => HandleClose(s, c)
    case UserRemoved(m, u) => HandleUserRemoved(s, m, u)
  }

  // Only the bound connection may send as a user.
  function AuthorizeSend(s: State, c: ConnectId, m: MessengerId, u: UserId): Result<(), Error> {
    if m !in s.messengers then Err(MessengerNotFound)
    else if u !in s.messengers[m].bound then Err(UserNotFound)
    else if s.messengers[m].bound[u] != c then Err(UserNotBound)
    else Ok(())
  }

  // Messages for a user go to the bound connection.
  function Recipient(s: State, m: MessengerId, u: UserId): Result<ConnectId, Error> {
    if m !in s.messengers then Err(MessengerNotFound)
    else if u !in s.messengers[m].bound then Err(UserNotFound)
    else if s.messengers[m].bound[u] !in s.connects then Err(ConnectNotFound)
    else Ok(s.messengers[m].bound[u])
  }

  // ----- histories -----

  // What happened, and whether the handler succeeded.
  datatype Happening = Happening(event: Event, ok: bool)

  function After(events: seq<Event>): State {
    if events == [] then START else Handle(After(events[..|events| - 1]), events[|events| - 1]).0
  }

  function History(events: seq<Event>): seq<Happening> {
    if events == [] then []
    else
      var init := events[..|events| - 1];
      History(init) + [Happening(events[|events| - 1], Handle(After(init), events[|events| - 1]).1.Ok?)]
  }

  predicate Binds(h: Happening, m: MessengerId, u: UserId, c: ConnectId) { h.ok && h.event == Bind(c, m, u) }

  predicate Releases(h: Happening, m: MessengerId, u: UserId, c: ConnectId) {
    h.ok && (h.event == Unbind(c, m, u) || h.event == Close(c) || h.event == UserRemoved(m, u))
  }

  // c bound u successfully and nothing since has released that binding.
  ghost predicate Owns(h: seq<Happening>, m: MessengerId, u: UserId, c: ConnectId) {
    exists i :: 0 <= i < |h| && Binds(h[i], m, u, c) && forall j | i < j < |h| :: !Releases(h[j], m, u, c)
  }

  lemma OwnsNext(h: seq<Happening>, x: Happening, m: MessengerId, u: UserId, c: ConnectId)
    ensures Owns(h + [x], m, u, c) <==> Binds(x, m, u, c) || (Owns(h, m, u, c) && !Releases(x, m, u, c))
  {
    var g := h + [x];
    if Binds(x, m, u, c) {
      assert Binds(g[|h|], m, u, c);
    }
    if Owns(h, m, u, c) && !Releases(x, m, u, c) {
      var i :| 0 <= i < |h| && Binds(h[i], m, u, c) && forall j | i < j < |h| :: !Releases(h[j], m, u, c);
      assert Binds(g[i], m, u, c) && forall j | i < j < |g| :: !Releases(g[j], m, u, c);
    }
    if Owns(g, m, u, c) {
      var i :| 0 <= i < |g| && Binds(g[i], m, u, c) && forall j | i < j < |g| :: !Releases(g[j], m, u, c);
      if i < |h| {
        assert g[|h|] == x && g[i] == h[i];
        forall j | i < j < |h|
          ensures !Releases(h[j], m, u, c)
        {
          assert g[j] == h[j];
        }
      }
    }
  }

  // ----- every reachable state -----

  // Every binding points at a live connection.
  ghost predicate Live(s: State) {
    && (forall m, u | m in s.messengers && u in s.messengers[m].bound :: s.messengers[m].bound[u] in s.connects)
    && (forall c | c in s.connects :: c < s.nextConnect)
  }

  predicate BoundTo(s: State, m: MessengerId, u: UserId, c: ConnectId) {
    m in s.messengers && u in s.messengers[m].bound && s.messengers[m].bound[u] == c
  }

  lemma HandleKeepsLive(s: State, e: Event)
    requires Live(s)
    ensures Live(Handle(s, e).0)
  {
  }

  lemma HandleMovesBinding(s: State, e: Event, m: MessengerId, u: UserId, c: ConnectId)
    requires Live(s)
    ensures var (s', r) := Handle(s, e);
            BoundTo(s', m, u, c) <==>
              Binds(Happening(e, r.Ok?), m, u, c) || (BoundTo(s, m, u, c) && !Releases(Happening(e, r.Ok?), m, u, c))
  {
  }

  // In every reachable state a user is bound to exactly the connection whose successful
  // bind was not followed by its unbind, its close or the user's removal; that connection
  // is alive, it alone may send as the user, and it alone receives for the user.
  lemma {:induction false} BindingFollowsHistory(events: seq<Event>, m: MessengerId, u: UserId, c: ConnectId)
    ensures Live(After(events))
    ensures BoundTo(After(events), m, u, c) <==> Owns(History(events), m, u, c)
    ensures AuthorizeSend(After(events), c, m, u).Ok? <==> Owns(History(events), m, u, c)
    ensures Recipient(After(events), m, u) == Ok(c) <==> Owns(History(events), m, u, c)
    ensures Owns(History(events), m, u, c) ==> c in After(events).connects
    decreases |events|
  {
    if events != [] {
      var init, e := events[..|events| - 1], events[|events| - 1];
      BindingFollowsHistory(init, m, u, c);
      HandleKeepsLive(After(init), e);
      HandleMovesBinding(After(init), e, m, u, c);
      OwnsNext(History(init), Happening(e, Handle(After(init), e).1.Ok?), m, u, c);
    }
  }

  // A user has at most one owner.
  lemma OneOwner(events: seq<Event>, m: MessengerId, u: UserId, c: ConnectId, d: ConnectId)
    requires Owns(History(events), m, u, c) && Owns(History(events), m, u, d)
    ensures c == d
  {
    BindingFollowsHistory(events, m, u, c);
    BindingFollowsHistory(events, m, u, d);
  }

  // ----- the server object -----

  class ChannelServer {
    var connects: set<ConnectId>
    var nextConnect: ConnectId
    var messengers: map<MessengerId, Messenger>

    ghost function Value(): State
      reads this
    {
      State(connects, nextConnect, messengers)
    }

    constructor ()
      ensures Value() == START
    {
      connects := {};
      nextConnect := 0;
      messengers := map[];
    }

    method Init() returns (id: ConnectId)
      modifies this
      ensures Value() == Handle(old(Value()), Connect).0 && id == old(nextConnect)
    {
      id := nextConnect;
      nextConnect := nextConnect + 1;
      connects := connects + {id};
    }

    // The entry is taken if it is free; then it must be the caller's own.
    method BindAgentUser(c: ConnectId, m: MessengerId, u: UserId) returns (r: Result<(), Error>)
      modifies this
      ensures (Value(), r) == HandleBind(old(Value()), c, m, u)
    {
      if c !in connects {
        return Err(Internal);
      }
      if m !in messengers {
        return Err(MessengerNotFound);
      }
      var messenger := messengers[m];
      if u !in messenger.users {
        return Err(UserNotFound);
      }
      if u !in messenger.bound {
        messenger := messenger.(bound := messenger.bound[u := c]);
      }
      messengers := messengers[m := messenger];
      if messenger.bound[u] != c {
        return Err(UserAlreadyBound);
      }
      r := Ok(());
    }

    method UnbindAgentUser(c: ConnectId, m: MessengerId, u: UserId) returns (r: Result<(), Error>)
      modifies this
      ensures (Value(), r) == HandleUnbind(old(Value()), c, m, u)
    {
      if c !in connects {
        return Err(Internal);
      }
      if m !in messengers {
        return Err(MessengerNotFound);
      }
      var messenger := messengers[m];
      if u !in messenger.bound {
        return Err(UserNotBound);
      }
      if messenger.bound[u] != c {
        return Err(UserAlreadyBound);
      }
      messengers := messengers[m := messenger.(bound := messenger.bound - {u})];
      r := Ok(());
    }

    // Forget the connection, then sweep its bindings out of every messenger.
    method CloseConnect(c: ConnectId) returns (r: Result<(), Error>)
      modifies this
      ensures (Value(), r) == HandleClose(old(Value()), c)
    {
      if c !in connects {
        return Err(ConnectNotFound);
      }
      connects := connects - {c};
      ghost var before := messengers;
      var todo := messengers.Keys;
      while todo != {}
        invariant todo <= before.Keys == messengers.Keys
        invariant connects == old(connects) - {c} && nextConnect == old(nextConnect)
        invariant forall m | m in before ::
                    messengers[m] == if m in todo then before[m] else before[m].(bound := Swept(before[m].bound, c))
        decreases |todo|
      {
        var m :| m in todo;
        todo := todo - {m};
        var bound := Sweep(messengers[m].bound, c);
        messengers := messengers[m := messengers[m].(bound := bound)];
      }
      assert messengers == map m | m in before :: before[m].(bound := Swept(before[m].bound, c));
      r := Ok(());
    }

    // Collect the connection's users, then remove them, until none is left.
    static method Sweep(bound: map<UserId, ConnectId>, c: ConnectId) returns (r: map<UserId, ConnectId>)
      ensures r == Swept(bound, c)
    {
      r := bound;
      var finished := false;
      while !finished
        invariant Swept(r, c) == Swept(bound, c)
        invariant finished ==> forall u | u in r :: r[u] != c
        decreases !finished, |r|
      {
        var candidates := set u | u in r && r[u] == c;
        finished := candidates == {};
        assert forall u | u in r && r[u] == c :: u in candidates;
        if !finished {
          ghost var one :| one in candidates;
          ghost var prev := r;
          r := map u | u in r && u !in candidates :: r[u];
          assert r.Keys == prev.Keys - candidates && one in prev.Keys;
          assert r.Keys < prev.Keys;
          Smaller(r.Keys, prev.Keys);
          assert Swept(r, c) == Swept(prev, c);
        }
      }
      assert Swept(r, c) == r;
    }

    method ProcessUserRemove(m: MessengerId, u: UserId) returns (r: Result<ConnectId, Error>)
      modifies this
      ensures Value() == HandleUserRemoved(old(Value()), m, u).0
      ensures r.Ok? <==> HandleUserRemoved(old(Value()), m, u).1.Ok?
      ensures r.Ok? ==> BoundTo(old(Value()), m, u, r.value)
    {
      if m !in messengers {
        return Err(MessengerNotFound);
      }
      var messenger := messengers[m];
      if u !in messenger.bound {
        return Err(UserNotFound);
      }
      var c := messenger.bound[u];
      messengers := messengers[m := messenger.(bound := messenger.bound - {u})];
      if c !in connects {
        return Err(ConnectNotFound);
      }
      r := Ok(c);
    }
  }

  lemma Smaller(a: set<UserId>, b: set<UserId>)
    requires a < b
    ensures |a| < |b|
  {
    assert b == a + (b - a);
  }
}
