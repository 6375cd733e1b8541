// The registry of per-file writer locks: weak references under one mutex, while the
// strong references come and go at any time.
module LockRegistry {
  import opened Wrappers

  type Key = string
  type Id = nat

  // What the holder of the mutex is about to do.
  datatype Task =
    | Getting(key: Key)
    | Missed(key: Key)
    | Created(key: Key, id: Id)
    | Removing(key: Key)
    | FoundDead(key: Key)

  // `strong` counts the strong references of every lock object ever created.
  datatype State = State(registry: map<Key, Id>, strong: map<Id, nat>, keyOf: map<Id, Key>, holder: Option<Task>)

  predicate Live(s: State, id: Id) { id in s.strong && s.strong[id] > 0 }

  predicate Registered(s: State, key: Key) { key in s.registry && Live(s, s.registry[key]) }

  datatype Step =
    | BeginGet(key: Key)
    | Upgrade
    | Miss
    | Create(id: Id)
    | Insert
    | BeginRemove(key: Key)
    | FindDead
    | FindNothing
    | Delete
    | Clone(id: Id)
    | Drop(id: Id)

  predicate Enabled(s: State, step: Step) {
    match step
    case BeginGet(_) => s.holder.None?
    case Upgrade => s.holder.Some? && s.holder.value.Getting? && Registered(s, s.holder.value.key)
    case Miss => s.holder.Some? && s.holder.value.Getting? && !Registered(s, s.holder.value.key)
    case Create(id) => s.holder.Some? && s.holder.value.Missed? && id !in s.strong
    case Insert => s.holder.Some? && s.holder.value.Created?
    case BeginRemove(_) => s.holder.None?
    case FindDead =>
      s.holder.Some? && s.holder.value.Removing? && s.holder.value.key in s.registry
      && !Registered(s, s.holder.value.key)
    case FindNothing =>
      s.holder.Some? && s.holder.value.Removing?
      && (s.holder.value.key !in s.registry || Registered(s, s.holder.value.key))
    case Delete => s.holder.Some? && s.holder.value.FoundDead?
    case Clone(id) => Live(s, id)
    case Drop(id) => Live(s, id)
  }

  function Apply(s: State, step: Step): State
    requires Enabled(s, step)
  {
    match step
    case BeginGet(key) => s.(holder := Some(Getting(key)))
    case Upgrade =>
      var id := s.registry[s.holder.value.key];
      s.(strong := s.strong[id := s.strong[id] + 1], holder := None)
    case Miss => s.(holder := Some(Missed(s.holder.value.key)))
    case Create(id) =>
      var key := s.holder.value.key;
      s.(strong := s.strong[id := 1], keyOf := s.keyOf[id := key], holder := Some(Created(key, id)))
    case Insert => s.(registry := s.registry[s.holder.value.key := s.holder.value.id], holder := None)
    case BeginRemove(key) => s.(holder := Some(Removing(key)))
    case FindDead => s.(holder := Some(FoundDead(s.holder.value.key)))
    case FindNothing => s.(holder := None)
    case Delete => s.(registry := s.registry - {s.holder.value.key}, holder := None)
    case Clone(id) => s.(strong := s.strong[id := s.strong[id] + 1])
    case Drop(id) => s.(strong := s.strong[id := s.strong[id] - 1])
  }

  predicate BelievesNone(holder: Option<Task>) {
    holder.Some? && (holder.value.Missed? || holder.value.Created? || holder.value.FoundDead?)
  }

  // A live lock is the registered one of its key, or has just been created for it; and
  // while a task believes a key has no live lock, it has none.
  ghost predicate Inv(s: State) {
    && s.keyOf.Keys == s.strong.Keys
    && (forall id | Live(s, id) ::
          (s.keyOf[id] in s.registry && s.registry[s.keyOf[id]] == id) || s.holder == Some(Created(s.keyOf[id], id)))
    && (forall key | key in s.registry :: s.registry[key] in s.keyOf && s.keyOf[s.registry[key]] == key)
    && (BelievesNone(s.holder) ==> !Registered(s, s.holder.value.key))
    && (s.holder.Some? && s.holder.value.Created? ==>
          s.holder.value.id in s.keyOf && s.keyOf[s.holder.value.id] == s.holder.value.key)
  }

  lemma {:induction false} StepKeepsInv(s: State, step: Step)
    requires Inv(s) && Enabled(s, step)
    ensures Inv(Apply(s, step))
  {
    if step.Clone? || step.Drop? {
      ReferenceKeepsInv(s, step);
    } else if step.Create? || step.Insert? {
      NewLockKeepsInv(s, step);
    } else {
      LookupKeepsInv(s, step);
    }
  }

  lemma {:induction false} ReferenceKeepsInv(s: State, step: Step)
    requires (step.Clone? || step.Drop?) && Inv(s) && Enabled(s, step)
    ensures Inv(Apply(s, step))
  {
  }

  lemma {:induction false} NewLockKeepsInv(s: State, step: Step)
    requires (step.Create? || step.Insert?) && Inv(s) && Enabled(s, step)
    ensures Inv(Apply(s, step))
  {
  }

  lemma {:induction false} LookupKeepsInv(s: State, step: Step)
    requires !step.Clone? && !step.Drop? && !step.Create? && !step.Insert? && Inv(s) && Enabled(s, step)
    ensures Inv(Apply(s, step))
  {
  }

  ghost predicate Reaches(s: State, steps: seq<Step>, s': State)
    decreases |steps|
  {
    if steps == [] then s == s' else Enabled(s, steps[0]) && Reaches(Apply(s, steps[0]), steps[1..], s')
  }

  // In any interleaving, two lock objects that are alive for one key are the same object.
  lemma {:induction false} OneLiveLockPerKey(s: State, steps: seq<Step>, s': State)
    requires Inv(s) && Reaches(s, steps, s')
    ensures Inv(s')
    ensures forall a, b | Live(s', a) && Live(s', b) && s'.keyOf[a] == s'.keyOf[b] :: a == b
    decreases |steps|
  {
    if steps != [] {
      StepKeepsInv(s, steps[0]);
      OneLiveLockPerKey(Apply(s, steps[0]), steps[1..], s');
    }
  }

  const START := State(map[], map[], map[], None)

  // From the empty registry on, no run ever has two live locks for one key.
  lemma {:induction false} OneLiveLockFromStart(steps: seq<Step>, s: State)
    requires Reaches(START, steps, s)
    ensures Inv(s)
    ensures forall a, b | Live(s, a) && Live(s, b) && s.keyOf[a] == s.keyOf[b] :: a == b
  {
    assert Inv(START);
    OneLiveLockPerKey(START, steps, s);
  }

  // ----- the registry object -----

  // The ways through get_lock and remove_lock are made of steps.
  lemma {:induction false} ShareIsSteps(s: State, key: Key)
    requires Inv(s) && s.holder.None? && Registered(s, key)
    ensures Inv(s.(strong := s.strong[s.registry[key] := s.strong[s.registry[key]] + 1]))
  {
    StepKeepsInv(s, BeginGet(key));
    StepKeepsInv(Apply(s, BeginGet(key)), Upgrade);
  }

  lemma {:induction false} CreateIsSteps(s: State, key: Key, newId: Id)
    requires Inv(s) && s.holder.None? && !Registered(s, key) && newId !in s.strong
    ensures Inv(State(s.registry[key := newId], s.strong[newId := 1], s.keyOf[newId := key], None))
  {
    StepKeepsInv(s, BeginGet(key));
    var s1 := Apply(s, BeginGet(key));
    StepKeepsInv(s1, Miss);
    var s2 := Apply(s1, Miss);
    StepKeepsInv(s2, Create(newId));
    StepKeepsInv(Apply(s2, Create(newId)), Insert);
  }

  lemma {:induction false} RemoveIsSteps(s: State, key: Key)
    requires Inv(s) && s.holder.None? && key in s.registry && !Registered(s, key)
    ensures Inv(s.(registry := s.registry - {key}))
  {
    StepKeepsInv(s, BeginRemove(key));
    var s1 := Apply(s, BeginRemove(key));
    StepKeepsInv(s1, FindDead);
    StepKeepsInv(Apply(s1, FindDead), Delete);
  }

  // get_lock and remove_lock as they run under the mutex when no reference is dropped meanwhile.
  class Registry {
    var entries: map<Key, Id>
    var strong: map<Id, nat>
    var keyOf: map<Id, Key>

    ghost function Value(): State
      reads this
    {
      State(entries, strong, keyOf, None)
    }

    constructor ()
      ensures Value() == START
    {
      entries := map[];
      strong := map[];
      keyOf := map[];
    }

    // A live registered lock is shared; otherwise a new one takes its place.
    method GetLock(key: Key, newId: Id) returns (id: Id)
      requires Inv(Value()) && newId !in strong
      modifies this
      ensures Inv(Value()) && Live(Value(), id) && keyOf[id] == key && entries == old(entries)[key := id]
      ensures id == (if Registered(old(Value()), key) then old(entries)[key] else newId)
      ensures forall i :: i in old(strong) && i != id ==> i in strong && strong[i] == old(strong)[i]
      ensures strong[id] == (if Registered(old(Value()), key) then old(strong)[id] + 1 else 1)
    {
      if key in entries && strong[entries[key]] > 0 {
        ShareIsSteps(Value(), key);
        id := entries[key];
        strong := strong[id := strong[id] + 1];
        assert entries == entries[key := id];
        return;
      }
      CreateIsSteps(Value(), key, newId);
      id := newId;
      strong := strong[id := 1];
      keyOf := keyOf[id := key];
      entries := entries[key := id];
    }

    // Forget the entry of a key whose lock nobody holds any more.
    method RemoveLock(key: Key)
      requires Inv(Value())
      modifies this`entries
      ensures Inv(Value())
      ensures entries == (if Registered(old(Value()), key) then old(entries) else old(entries) - {key})
    {
      if key in entries && strong[entries[key]] == 0 {
        RemoveIsSteps(Value(), key);
        entries := entries - {key};
      }
    }
  }
}
