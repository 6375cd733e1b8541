// The search indexes: what one synchronisation of a key does, and how synchronisations
// interleave with writers of the metadata they index.
module SearchIndex {
  import opened Wrappers

  type Key = string

  // The indexed fields of one agent (id, description) or one role (name, full name,
  // description). The first field is also the completion entry.
  type Document = d: seq<string> | |d| > 0 witness [""]

  datatype Kind = Identity | Role

  function Width(kind: Kind): nat { if kind.Identity? then 2 else 3 }

  datatype Indexes = Indexes(fulltext: set<(Key, Document)>, completion: set<(Key, string)>)

  function Lookup<V>(m: map<Key, V>, k: Key): Option<V> { if k in m then Some(m[k]) else None }

  // ----- one synchronisation, index by index -----

  function IdentityFulltext(ix: Indexes, k: Key, prev: Option<Document>, next: Option<Document>): Indexes {
    if next.Some? then
      if prev.Some? && prev.value == next.value then ix
      else ix.(fulltext := Without(ix.fulltext, k, prev) + {(k, next.value)})
    else ix.(fulltext := Without(ix.fulltext, k, prev))
  }

  // The agent id is taken to be immutable: it is inserted once and removed with the agent.
  function IdentityCompletion(ix: Indexes, k: Key, prev: Option<Document>, next: Option<Document>): Indexes {
    if next.Some? then
      if prev.Some? then ix else ix.(completion := ix.completion + {(k, next.value[0])})
    else if prev.Some? then ix.(completion := ix.completion - {(k, prev.value[0])})
    else ix
  }

  function RoleCompletion(ix: Indexes, k: Key, prev: Option<Document>, next: Option<Document>): Indexes {
    if next.Some? then
      if prev.Some? && prev.value[0] == next.value[0] then ix
      else
        var kept := if prev.Some? then ix.completion - {(k, prev.value[0])} else ix.completion;
        ix.(completion := kept + {(k, next.value[0])})
    else if prev.Some? then ix.(completion := ix.completion - {(k, prev.value[0])})
    else ix
  }

  function RoleFulltext(ix: Indexes, k: Key, prev: Option<Document>, next: Option<Document>): Indexes {
    if next.Some? then
      if prev.Some? && SameRole(prev.value, next.value) then ix
      else ix.(fulltext := Without(ix.fulltext, k, prev) + {(k, next.value)})
    else ix.(fulltext := Without(ix.fulltext, k, prev))
  }

  // Name, full name and description are compared one by one.
  predicate SameRole(prev: Document, next: Document) {
    |prev| == 3 && |next| == 3 && prev[0] == next[0] && prev[1] == next[1] && prev[2] == next[2]
  }

  function Without(entries: set<(Key, Document)>, k: Key, prev: Option<Document>): set<(Key, Document)> {
    if prev.Some? then entries - {(k, prev.value)} else entries
  }

  // Agents update the full text first, roles the completion first.
  function FirstUpdate(kind: Kind, ix: Indexes, k: Key, prev: Option<Document>, next: Option<Document>): Indexes {
    if kind.Identity? then IdentityFulltext(ix, k, prev, next) else RoleCompletion(ix, k, prev, next)
  }

  function SecondUpdate(kind: Kind, ix: Indexes, k: Key, prev: Option<Document>, next: Option<Document>): Indexes {
    if kind.Identity? then IdentityCompletion(ix, k, prev, next) else RoleFulltext(ix, k, prev, next)
  }

  // ----- agreement with the metadata -----

  ghost predicate FulltextAt(ix: Indexes, k: Key, v: Option<Document>) {
    forall d: Document :: (k, d) in ix.fulltext <==> v == Some(d)
  }

  ghost predicate CompletionAt(ix: Indexes, k: Key, v: Option<Document>) {
    forall n :: (k, n) in ix.completion <==> v.Some? && v.value[0] == n
  }

  // Both indexes hold exactly the entries of v under key k.
  ghost predicate Agrees(ix: Indexes, k: Key, v: Option<Document>) {
    FulltextAt(ix, k, v) && CompletionAt(ix, k, v)
  }

  // The documents a kind may store under a key: agents carry their key as id.
  predicate Fits(kind: Kind, k: Key, d: Document) {
    |d| == Width(kind) && (kind.Identity? ==> d[0] == k)
  }

  predicate AllFit(kind: Kind, k: Key, v: Option<Document>) { v.Some? ==> Fits(kind, k, v.value) }

  ghost predicate OnlyKey(ix: Indexes, ix': Indexes, k: Key) {
    && (forall j, d: Document | j != k :: (j, d) in ix.fulltext <==> (j, d) in ix'.fulltext)
    && (forall j, n: string | j != k :: (j, n) in ix.completion <==> (j, n) in ix'.completion)
  }

  // The two updates together take the indexes from the old document to the new one.
  lemma {:induction false} UpdatesReachNew(kind: Kind, ix: Indexes, k: Key, prev: Option<Document>,
                                           next: Option<Document>)
    requires Agrees(ix, k, prev) && AllFit(kind, k, prev) && AllFit(kind, k, next)
    ensures var half := FirstUpdate(kind, ix, k, prev, next);
            var whole := SecondUpdate(kind, half, k, prev, next);
      && OnlyKey(ix, half, k) && OnlyKey(half, whole, k)
      && (if kind.Identity? then FulltextAt(half, k, next) && CompletionAt(half, k, prev)
          else CompletionAt(half, k, next) && FulltextAt(half, k, prev))
      && Agrees(whole, k, next)
  {
    if kind.Role? && prev.Some? && next.Some? && SameRole(prev.value, next.value) {
      assert prev.value == next.value;
    }
  }

  // The agent update is right exactly as long as an agent's id does not change.
  lemma {:induction false} IdentityNeedsImmutableId(ix: Indexes, k: Key, prev: Document, next: Document)
    requires Agrees(ix, k, Some(prev))
    ensures var half := IdentityFulltext(ix, k, Some(prev), Some(next));
            Agrees(IdentityCompletion(half, k, Some(prev), Some(next)), k, Some(next)) <==> prev[0] == next[0]
  {
    assert (k, prev[0]) in ix.completion;
  }

  // ----- interleavings -----

  // A stored record: the indexed document and the fields no index reads.
  datatype Record = Record(doc: Document, rest: string)

  datatype Sync =
    | Unmarked
    | Emptied(prev: Option<Document>)
    | Fetched(prev: Option<Document>, next: Option<Document>)
    | Halfway(prev: Option<Document>, next: Option<Document>)
    | Updated(next: Option<Document>)

  // One synchronisation of a key; several of one key may be under way.
  datatype Ticket = Ticket(key: Key, number: nat)

  // `known` is the search metadata; `writers` are writes not yet followed by their mark.
  datatype State = State(
    stored: map<Key, Record>, dirty: set<Key>, known: map<Key, Document>, ix: Indexes,
    writers: multiset<Key>, syncs: map<Ticket, Sync>)

  function DocAt(s: State, k: Key): Option<Document> {
    if k in s.stored then Some(s.stored[k].doc) else None
  }

  datatype Step =
    | Write(k: Key, record: Option<Record>)
    | WriteRest(k: Key, rest: string)
    | Mark(k: Key)
    | StartSync(t: Ticket)
    | TakeKnown(t: Ticket)
    | Fetch(t: Ticket)
    | UpdateFirst(t: Ticket)
    | UpdateSecond(t: Ticket)
    | Save(t: Ticket)

  function KeyOf(step: Step): Key {
    if step.Write? || step.WriteRest? || step.Mark? then step.k else step.t.key
  }

  ghost predicate Enabled(kind: Kind, s: State, step: Step) {
    match step
    case Write(k, r) => r.Some? ==> Fits(kind, k, r.value.doc)
    case WriteRest(k, _) => k in s.stored
    case Mark(k) => k in s.writers
    case StartSync(t) => t.key in s.dirty && t !in s.syncs
    case TakeKnown(t) => t in s.syncs && s.syncs[t].Unmarked?
    case Fetch(t) => t in s.syncs && s.syncs[t].Emptied?
    case UpdateFirst(t) => t in s.syncs && s.syncs[t].Fetched?
    case UpdateSecond(t) => t in s.syncs && s.syncs[t].Halfway?
    case Save(t) => t in s.syncs && s.syncs[t].Updated?
  }

  // One atomic step of a writer or of one synchronisation.
  function Apply(kind: Kind, s: State, step: Step): State
    requires Enabled(kind, s, step)
  {
    match step
    case Write(k, r) =>
      s.(stored := if r.Some? then s.stored[k := r.value] else s.stored - {k}, writers := s.writers + multiset{k})
    case WriteRest(k, rest) => s.(stored := s.stored[k := s.stored[k].(rest := rest)])
    case Mark(k) => s.(dirty := s.dirty + {k}, writers := s.writers - multiset{k})
    case StartSync(t) => s.(dirty := s.dirty - {t.key}, syncs := s.syncs[t := Unmarked])
    case TakeKnown(t) => s.(known := s.known - {t.key}, syncs := s.syncs[t := Emptied(Lookup(s.known, t.key))])
    case Fetch(t) => s.(syncs := s.syncs[t := Fetched(s.syncs[t].prev, DocAt(s, t.key))])
    case UpdateFirst(t) =>
      var y := s.syncs[t];
      s.(ix := FirstUpdate(kind, s.ix, t.key, y.prev, y.next), syncs := s.syncs[t := Halfway(y.prev, y.next)])
    case UpdateSecond(t) =>
      var y := s.syncs[t];
      s.(ix := SecondUpdate(kind, s.ix, t.key, y.prev, y.next), syncs := s.syncs[t := Updated(y.next)])
    case Save(t) =>
      var y := s.syncs[t];
      s.(known := if y.next.Some? then s.known[t.key := y.next.value] else s.known, syncs := s.syncs - {t})
  }

  // At start-up every stored key has a forced synchronisation ahead of it.
  function Init(stored: map<Key, Record>): State {
    State(stored, {}, map[], Indexes({}, {}), multiset{}, map k | k in stored :: Ticket(k, 0) := Unmarked)
  }

  // The synchronisation has taken the old document and not yet saved the new one.
  predicate Holding(s: State, t: Ticket) { t in s.syncs && !s.syncs[t].Unmarked? }

  ghost predicate Waiting(s: State, k: Key) { exists t :: t in s.syncs && t.key == k && s.syncs[t].Unmarked? }

  // No synchronisation takes the old document of a key while another one holds it.
  ghost predicate Exclusive(s: State, step: Step) {
    step.TakeKnown? ==> forall u | Holding(s, u) :: u.key != step.t.key
  }

  // A value read from the store is current, or somebody is due to read it again.
  ghost predicate Excused(s: State, k: Key, v: Option<Document>) {
    v == DocAt(s, k) || k in s.dirty || k in s.writers || Waiting(s, k)
  }

  // What holds while a synchronisation of key k is at stage y.
  ghost predicate Stage(kind: Kind, s: State, k: Key, y: Sync) {
    && k !in s.known
    && match y
       case Unmarked => true
       case Emptied(prev) => AllFit(kind, k, prev) && Agrees(s.ix, k, prev)
       case Fetched(prev, next) =>
         AllFit(kind, k, prev) && AllFit(kind, k, next) && Agrees(s.ix, k, prev) && Excused(s, k, next)
       case Halfway(prev, next) =>
         && AllFit(kind, k, prev) && AllFit(kind, k, next) && Excused(s, k, next)
         && Agrees(SecondUpdate(kind, s.ix, k, prev, next), k, next)
       case Updated(next) => AllFit(kind, k, next) && Agrees(s.ix, k, next) && Excused(s, k, next)
  }

  // What holds of key k: at most one synchronisation holds its old document, and the
  // indexes are where that one has brought them, or agree with the search metadata.
  ghost predicate KeyInv(kind: Kind, s: State, k: Key) {
    && AllFit(kind, k, DocAt(s, k)) && AllFit(kind, k, Lookup(s.known, k))
    && (forall t, u | Holding(s, t) && Holding(s, u) && t.key == k && u.key == k :: t == u)
    && (forall t | Holding(s, t) && t.key == k :: Stage(kind, s, k, s.syncs[t]))
    && ((forall t | Holding(s, t) :: t.key != k) ==>
          Agrees(s.ix, k, Lookup(s.known, k)) && Excused(s, k, Lookup(s.known, k)))
  }

  ghost predicate Inv(kind: Kind, s: State) { forall k :: KeyInv(kind, s, k) }

  lemma {:induction false} InitInv(kind: Kind, stored: map<Key, Record>)
    requires forall k | k in stored :: Fits(kind, k, stored[k].doc)
    ensures Inv(kind, Init(stored))
  {
    var s := Init(stored);
    forall k
      ensures KeyInv(kind, s, k)
    {
      assert k in stored ==> Ticket(k, 0) in s.syncs;
    }
  }

  // The second update of another key looks only at that key's entries.
  lemma {:induction false} SecondUpdateFrame(kind: Kind, ix: Indexes, ix': Indexes, k: Key, j: Key,
                                             prev: Option<Document>, next: Option<Document>)
    requires k != j && OnlyKey(ix, ix', k)
    requires Agrees(SecondUpdate(kind, ix, j, prev, next), j, next)
    ensures Agrees(SecondUpdate(kind, ix', j, prev, next), j, next)
  {
  }

  // A step leaves the indexes of every other key alone.
  lemma {:induction false} StepTouchesOneKey(kind: Kind, s: State, step: Step)
    requires Enabled(kind, s, step) && KeyInv(kind, s, KeyOf(step))
    ensures OnlyKey(s.ix, Apply(kind, s, step).ix, KeyOf(step))
  {
  }

  ghost predicate SameAt(s: State, s': State, j: Key) {
    && DocAt(s', j) == DocAt(s, j) && Lookup(s'.known, j) == Lookup(s.known, j)
    && (j in s'.dirty <==> j in s.dirty) && (j in s'.writers <==> j in s.writers)
    && (forall t: Ticket | t.key == j :: t in s'.syncs <==> t in s.syncs)
    && (forall t: Ticket | t.key == j && t in s.syncs :: s'.syncs[t] == s.syncs[t])
  }

  // Nothing about key j differs, nor do the indexes beyond what they hold under key k.
  ghost predicate SameBut(s: State, s': State, k: Key, j: Key) { SameAt(s, s', j) && OnlyKey(s.ix, s'.ix, k) }

  lemma {:induction false} StepLeavesState(kind: Kind, s: State, step: Step, j: Key)
    requires Enabled(kind, s, step) && j != KeyOf(step)
    ensures SameAt(s, Apply(kind, s, step), j)
  {
  }

  lemma {:induction false} StepLeavesOthers(kind: Kind, s: State, step: Step, j: Key)
    requires Enabled(kind, s, step) && KeyInv(kind, s, KeyOf(step)) && j != KeyOf(step)
    ensures SameBut(s, Apply(kind, s, step), KeyOf(step), j)
  {
    StepLeavesState(kind, s, step, j);
    StepTouchesOneKey(kind, s, step);
  }

  lemma {:induction false} StageIsKept(kind: Kind, s: State, s': State, k: Key, j: Key, t: Ticket)
    requires SameBut(s, s', k, j) && k != j && t.key == j && t in s.syncs && Stage(kind, s, j, s.syncs[t])
    ensures Stage(kind, s', j, s.syncs[t])
  {
    assert Waiting(s, j) ==> Waiting(s', j);
    if s.syncs[t].Halfway? {
      SecondUpdateFrame(kind, s.ix, s'.ix, k, j, s.syncs[t].prev, s.syncs[t].next);
    }
  }

  lemma {:induction false} StepKeepsOthers(kind: Kind, s: State, step: Step, j: Key)
    requires Enabled(kind, s, step) && KeyInv(kind, s, KeyOf(step)) && KeyInv(kind, s, j) && j != KeyOf(step)
    ensures KeyInv(kind, Apply(kind, s, step), j)
  {
    var s', k := Apply(kind, s, step), KeyOf(step);
    StepLeavesOthers(kind, s, step, j);
    OthersKeepInv(kind, s, s', k, j);
  }

  lemma {:induction false} OthersKeepInv(kind: Kind, s: State, s': State, k: Key, j: Key)
    requires SameBut(s, s', k, j) && k != j && KeyInv(kind, s, j)
    ensures KeyInv(kind, s', j)
  {
    assert forall t: Ticket | t.key == j :: Holding(s', t) <==> Holding(s, t);
    assert Waiting(s, j) ==> Waiting(s', j);
    forall t | Holding(s', t) && t.key == j
      ensures Stage(kind, s', j, s'.syncs[t])
    {
      StageIsKept(kind, s, s', k, j, t);
    }
  }

  lemma {:induction false} StepKeepsKey(kind: Kind, s: State, step: Step)
    requires Enabled(kind, s, step) && Exclusive(s, step) && KeyInv(kind, s, KeyOf(step))
    ensures KeyInv(kind, Apply(kind, s, step), KeyOf(step))
  {
    if step.Write? || step.WriteRest? || step.Mark? || step.StartSync? {
      ExcusingKeepsKey(kind, s, Apply(kind, s, step), KeyOf(step));
    } else if step.TakeKnown? {
      TakingKeepsKey(kind, s, step.t);
    } else if step.Save? {
      SavingKeepsKey(kind, s, step.t);
    } else {
      HolderKeepsKey(kind, s, step);
    }
  }

  // Writes, marks and starts only add or move the excuse of a key.
  lemma {:induction false} ExcusingKeepsKey(kind: Kind, s: State, s': State, k: Key)
    requires KeyInv(kind, s, k) && AllFit(kind, k, DocAt(s', k))
    requires s'.known == s.known && s'.ix == s.ix
    requires forall t :: Holding(s', t) <==> Holding(s, t)
    requires forall t | Holding(s, t) :: t in s'.syncs && s'.syncs[t] == s.syncs[t]
    requires forall v | Excused(s, k, v) :: Excused(s', k, v)
    ensures KeyInv(kind, s', k)
  {
    forall t | Holding(s', t) && t.key == k
      ensures Stage(kind, s', k, s'.syncs[t])
    {
      assert Holding(s, t) && Stage(kind, s, k, s.syncs[t]);
    }
  }

  lemma {:induction false} TakingKeepsKey(kind: Kind, s: State, t: Ticket)
    requires Enabled(kind, s, TakeKnown(t)) && Exclusive(s, TakeKnown(t)) && KeyInv(kind, s, t.key)
    ensures KeyInv(kind, Apply(kind, s, TakeKnown(t)), t.key)
  {
    var s' := Apply(kind, s, TakeKnown(t));
    assert forall u | Holding(s', u) && u.key == t.key :: u == t;
    assert Holding(s', t);
  }

  // The holder moves on by one stage.
  lemma {:induction false} HolderKeepsKey(kind: Kind, s: State, step: Step)
    requires (step.Fetch? || step.UpdateFirst? || step.UpdateSecond?) && Enabled(kind, s, step)
    requires KeyInv(kind, s, step.t.key)
    ensures KeyInv(kind, Apply(kind, s, step), step.t.key)
  {
    var s', t := Apply(kind, s, step), step.t;
    NextStage(kind, s, step);
    assert forall u | Holding(s', u) :: Holding(s, u);
    assert Holding(s', t) && Holding(s, t);
    assert DocAt(s', t.key) == DocAt(s, t.key) && s'.known == s.known;
  }

  lemma {:induction false} NextStage(kind: Kind, s: State, step: Step)
    requires (step.Fetch? || step.UpdateFirst? || step.UpdateSecond?) && Enabled(kind, s, step)
    requires Stage(kind, s, step.t.key, s.syncs[step.t]) && AllFit(kind, step.t.key, DocAt(s, step.t.key))
    ensures Stage(kind, Apply(kind, s, step), step.t.key, Apply(kind, s, step).syncs[step.t])
  {
    var y := s.syncs[step.t];
    assert Waiting(s, step.t.key) ==> Waiting(Apply(kind, s, step), step.t.key);
    if step.UpdateFirst? {
      UpdatesReachNew(kind, s.ix, step.t.key, y.prev, y.next);
    }
  }

  lemma {:induction false} SavingKeepsKey(kind: Kind, s: State, t: Ticket)
    requires Enabled(kind, s, Save(t)) && KeyInv(kind, s, t.key)
    ensures KeyInv(kind, Apply(kind, s, Save(t)), t.key)
  {
    var s', k := Apply(kind, s, Save(t)), t.key;
    assert Holding(s, t) && Stage(kind, s, k, s.syncs[t]);
    assert forall u | Holding(s', u) :: Holding(s, u) && u != t;
    assert Waiting(s, k) ==> Waiting(s', k);
    assert Lookup(s'.known, k) == s.syncs[t].next;
  }

  lemma {:induction false} StepKeepsInv(kind: Kind, s: State, step: Step)
    requires Enabled(kind, s, step) && Exclusive(s, step) && Inv(kind, s)
    ensures Inv(kind, Apply(kind, s, step))
  {
    StepKeepsKey(kind, s, step);
    forall j | j != KeyOf(step)
      ensures KeyInv(kind, Apply(kind, s, step), j)
    {
      StepKeepsOthers(kind, s, step, j);
    }
  }

  // ----- runs -----

  ghost predicate Reaches(kind: Kind, s: State, steps: seq<Step>, s': State)
    decreases |steps|
  {
    if steps == [] then s == s'
    else Enabled(kind, s, steps[0]) && Reaches(kind, Apply(kind, s, steps[0]), steps[1..], s')
  }

  ghost predicate ExclusiveRun(kind: Kind, s: State, steps: seq<Step>)
    decreases |steps|
  {
    steps != [] && Enabled(kind, s, steps[0]) ==>
      Exclusive(s, steps[0]) && ExclusiveRun(kind, Apply(kind, s, steps[0]), steps[1..])
  }

  lemma {:induction false} RunKeepsInv(kind: Kind, s: State, steps: seq<Step>, s': State)
    requires Inv(kind, s) && Reaches(kind, s, steps, s') && ExclusiveRun(kind, s, steps)
    ensures Inv(kind, s')
    decreases |steps|
  {
    if steps != [] {
      StepKeepsInv(kind, s, steps[0]);
      RunKeepsInv(kind, Apply(kind, s, steps[0]), steps[1..], s');
    }
  }

  ghost predicate InSync(s: State, k: Key) { exists t :: t in s.syncs && t.key == k }

  ghost predicate Quiescent(s: State) { s.syncs == map[] && s.writers == multiset{} && s.dirty == {} }

  // The indexes built from scratch out of the stored metadata.
  ghost function Rebuild(stored: map<Key, Record>): Indexes {
    Indexes(set k | k in stored :: (k, stored[k].doc), set k | k in stored :: (k, stored[k].doc[0]))
  }

  // However writers and synchronisations interleave, as long as no two synchronisations
  // hold the old document of one key: a key whose index entries do not match its stored
  // metadata is dirty, has a writer that has yet to mark it, or is being synchronised; when
  // nothing of the kind is left the indexes equal a rebuild.
  lemma {:induction false} StaleIsAccountedFor(kind: Kind, stored: map<Key, Record>, steps: seq<Step>, s: State)
    requires forall k | k in stored :: Fits(kind, k, stored[k].doc)
    requires Reaches(kind, Init(stored), steps, s) && ExclusiveRun(kind, Init(stored), steps)
    ensures forall k | !Agrees(s.ix, k, DocAt(s, k)) :: k in s.dirty || k in s.writers || InSync(s, k)
    ensures Quiescent(s) ==> s.ix == Rebuild(s.stored)
  {
    InitInv(kind, stored);
    RunKeepsInv(kind, Init(stored), steps, s);
    forall k
      ensures Agrees(s.ix, k, DocAt(s, k)) || k in s.dirty || k in s.writers || InSync(s, k)
    {
      assert KeyInv(kind, s, k);
      assert InSync(s, k) || forall t | Holding(s, t) :: t.key != k;
    }
    if Quiescent(s) {
      QuiescentIsRebuilt(kind, s);
    }
  }

  lemma {:induction false} QuiescentIsRebuilt(kind: Kind, s: State)
    requires Inv(kind, s) && Quiescent(s)
    ensures s.ix == Rebuild(s.stored)
  {
    forall k
      ensures Agrees(s.ix, k, if k in s.stored then Some(s.stored[k].doc) else None)
    {
      assert KeyInv(kind, s, k);
    }
    AgreeingIsRebuild(s.stored, s.ix);
  }

  lemma {:induction false} AgreeingIsRebuild(stored: map<Key, Record>, ix: Indexes)
    requires forall k :: Agrees(ix, k, if k in stored then Some(stored[k].doc) else None)
    ensures ix == Rebuild(stored)
  {
    var r := Rebuild(stored);
    forall e: (Key, Document)
      ensures e in ix.fulltext <==> e in r.fulltext
    {
      assert Agrees(ix, e.0, if e.0 in stored then Some(stored[e.0].doc) else None);
      assert e == (e.0, e.1);
    }
    forall e: (Key, string)
      ensures e in ix.completion <==> e in r.completion
    {
      assert Agrees(ix, e.0, if e.0 in stored then Some(stored[e.0].doc) else None);
      assert e == (e.0, e.1);
    }
  }
}
