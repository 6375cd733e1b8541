// When two synchronisations hold the old document of one key: when an index update is
// right, a run from start-up that leaves a stale entry, and how long such an entry stays.
module SearchOverlap {
  import opened SearchIndex
  import opened Wrappers

  // ----- when one update is right -----

  function UpdatedFulltext(kind: Kind, ix: Indexes, k: Key, prev: Option<Document>, next: Option<Document>): Indexes {
    if kind.Identity? then IdentityFulltext(ix, k, prev, next) else RoleFulltext(ix, k, prev, next)
  }

  function UpdatedCompletion(kind: Kind, ix: Indexes, k: Key, prev: Option<Document>, next: Option<Document>): Indexes {
    if kind.Identity? then IdentityCompletion(ix, k, prev, next) else RoleCompletion(ix, k, prev, next)
  }

  // Whatever is held under the key, the full text ends up right if and only if the document
  // is unchanged and was indexed right, or nothing but the old and the new text is held.
  lemma {:induction false} FulltextRightIff(kind: Kind, ix: Indexes, k: Key, prev: Option<Document>,
                                            next: Option<Document>)
    requires AllFit(kind, k, prev) && AllFit(kind, k, next)
    ensures FulltextAt(UpdatedFulltext(kind, ix, k, prev, next), k, next) <==>
            if next.Some? && prev == next then FulltextAt(ix, k, next)
            else forall d: Document | (k, d) in ix.fulltext :: Some(d) == prev || Some(d) == next
  {
    var ix' := UpdatedFulltext(kind, ix, k, prev, next);
    if kind.Role? && prev.Some? && next.Some? && SameRole(prev.value, next.value) {
      assert prev.value == next.value;
    }
    if !(next.Some? && prev == next) {
      assert forall d: Document :: (k, d) in ix'.fulltext <==>
             Some(d) == next || ((k, d) in ix.fulltext && Some(d) != prev);
    }
  }

  predicate Names(v: Option<Document>, n: string) { v.Some? && v.value[0] == n }

  // The same for the completion, which looks at the first field only, and for agents not
  // even at that when an old document is known.
  lemma {:induction false} CompletionRightIff(kind: Kind, ix: Indexes, k: Key, prev: Option<Document>,
                                              next: Option<Document>)
    requires AllFit(kind, k, prev) && AllFit(kind, k, next)
    ensures CompletionAt(UpdatedCompletion(kind, ix, k, prev, next), k, next) <==>
            if next.Some? && prev.Some? && prev.value[0] == next.value[0] then CompletionAt(ix, k, next)
            else forall n | (k, n) in ix.completion :: Names(prev, n) || Names(next, n)
  {
    var ix' := UpdatedCompletion(kind, ix, k, prev, next);
    if !(next.Some? && prev.Some? && prev.value[0] == next.value[0]) {
      assert forall n :: (k, n) in ix'.completion <==> Names(next, n) || ((k, n) in ix.completion && !Names(prev, n));
    }
  }

  // ----- composing runs -----

  lemma {:induction false} ReachesCons(kind: Kind, s: State, step: Step, rest: seq<Step>, s': State)
    requires Enabled(kind, s, step) && Reaches(kind, Apply(kind, s, step), rest, s')
    ensures Reaches(kind, s, [step] + rest, s')
  {
    assert ([step] + rest)[1..] == rest;
  }

  lemma {:induction false} ReachesConcat(kind: Kind, s: State, a: seq<Step>, s1: State, b: seq<Step>, s2: State)
    requires Reaches(kind, s, a, s1) && Reaches(kind, s1, b, s2)
    ensures Reaches(kind, s, a + b, s2)
    decreases |a|
  {
    if a == [] {
      assert a + b == b;
    } else {
      assert (a + b)[1..] == a[1..] + b;
      ReachesConcat(kind, Apply(kind, s, a[0]), a[1..], s1, b, s2);
    }
  }

  // A writer stores v and marks the key; a synchronisation then starts and reads v.
  function WriteAndFetch(t: Ticket, v: Document): seq<Step> {
    [Write(t.key, Some(Record(v, "")))] + ([Mark(t.key)] + ([StartSync(t)] + ([TakeKnown(t)] + ([Fetch(t)] + []))))
  }

  function Refetched(s: State, t: Ticket, v: Document): State {
    s.(stored := s.stored[t.key := Record(v, "")], known := s.known - {t.key},
       syncs := s.syncs[t := Fetched(Lookup(s.known, t.key), Some(v))])
  }

  lemma {:induction false} WriteAndFetchReaches(kind: Kind, s: State, t: Ticket, v: Document)
    requires Fits(kind, t.key, v) && s.dirty == {} && s.writers == multiset{} && t !in s.syncs
    ensures Reaches(kind, s, WriteAndFetch(t, v), Refetched(s, t, v))
  {
    var s1 := Apply(kind, s, Write(t.key, Some(Record(v, ""))));
    var s2 := Apply(kind, s1, Mark(t.key));
    assert s2 == s.(stored := s.stored[t.key := Record(v, "")], dirty := {t.key});
    var s3 := Apply(kind, s2, StartSync(t));
    var s4 := Apply(kind, s3, TakeKnown(t));
    var s5 := Apply(kind, s4, Fetch(t));
    assert s5.syncs == Refetched(s, t, v).syncs;
    assert s5 == Refetched(s, t, v);
    ReachesCons(kind, s4, Fetch(t), [], s5);
    ReachesCons(kind, s3, TakeKnown(t), [Fetch(t)] + [], s5);
    ReachesCons(kind, s2, StartSync(t), [TakeKnown(t)] + ([Fetch(t)] + []), s5);
    ReachesCons(kind, s1, Mark(t.key), [StartSync(t)] + ([TakeKnown(t)] + ([Fetch(t)] + [])), s5);
    ReachesCons(kind, s, Write(t.key, Some(Record(v, ""))),
                [Mark(t.key)] + ([StartSync(t)] + ([TakeKnown(t)] + ([Fetch(t)] + []))), s5);
  }

  // A synchronisation that has read the store updates both indexes and saves.
  function Finish(t: Ticket): seq<Step> { [UpdateFirst(t)] + ([UpdateSecond(t)] + ([Save(t)] + [])) }

  function Finished(kind: Kind, s: State, t: Ticket, prev: Option<Document>, v: Document): State {
    s.(ix := SecondUpdate(kind, FirstUpdate(kind, s.ix, t.key, prev, Some(v)), t.key, prev, Some(v)),
       known := s.known[t.key := v], syncs := s.syncs - {t})
  }

  lemma {:induction false} FinishReaches(kind: Kind, s: State, t: Ticket, prev: Option<Document>, v: Document)
    requires t in s.syncs && s.syncs[t] == Fetched(prev, Some(v))
    ensures Reaches(kind, s, Finish(t), Finished(kind, s, t, prev, v))
  {
    var s1 := Apply(kind, s, UpdateFirst(t));
    var s2 := Apply(kind, s1, UpdateSecond(t));
    var s3 := Apply(kind, s2, Save(t));
    assert s3.syncs == s.syncs - {t};
    assert s3 == Finished(kind, s, t, prev, v);
    ReachesCons(kind, s2, Save(t), [], s3);
    ReachesCons(kind, s1, UpdateSecond(t), [Save(t)] + [], s3);
    ReachesCons(kind, s, UpdateFirst(t), [UpdateSecond(t)] + ([Save(t)] + []), s3);
  }

  // ----- a run that goes stale -----

  function Exactly(k: Key, v: Document): Indexes { Indexes({(k, v)}, {(k, v[0])}) }

  function Both(k: Key, v: Document, w: Document): Indexes { Indexes({(k, v), (k, w)}, {(k, v[0]), (k, w[0])}) }

  lemma {:induction false} FirstIndexing(kind: Kind, ix: Indexes, k: Key, v: Document)
    requires Fits(kind, k, v)
    ensures SecondUpdate(kind, FirstUpdate(kind, ix, k, None, Some(v)), k, None, Some(v)) ==
            Indexes(ix.fulltext + {(k, v)}, ix.completion + {(k, v[0])})
  {
  }

  lemma {:induction false} Reindexing(kind: Kind, k: Key, v: Document, w: Document)
    requires Fits(kind, k, v) && Fits(kind, k, w)
    ensures SecondUpdate(kind, FirstUpdate(kind, Exactly(k, v), k, Some(v), Some(w)), k, Some(v), Some(w)) ==
            Exactly(k, w)
  {
    if kind.Role? && SameRole(v, w) {
      assert v == w;
    }
  }

  // The first synchronisation, of start-up.
  function StartUp(k: Key): seq<Step> { [TakeKnown(Ticket(k, 0))] + ([Fetch(Ticket(k, 0))] + Finish(Ticket(k, 0))) }

  function Settled(k: Key, v: Document): State {
    State(map[k := Record(v, "")], {}, map[k := v], Exactly(k, v), multiset{}, map[])
  }

  lemma {:induction false} StartUpReaches(kind: Kind, k: Key, v: Document)
    requires Fits(kind, k, v)
    ensures Reaches(kind, Init(map[k := Record(v, "")]), StartUp(k), Settled(k, v))
  {
    var t := Ticket(k, 0);
    var s := Init(map[k := Record(v, "")]);
    assert s.syncs == map[t := Unmarked];
    var s1 := Apply(kind, s, TakeKnown(t));
    var s2 := Apply(kind, s1, Fetch(t));
    assert s2.syncs == map[t := Fetched(None, Some(v))];
    FinishReaches(kind, s2, t, None, v);
    FirstIndexing(kind, Indexes({}, {}), k, v);
    assert Finished(kind, s2, t, None, v) == Settled(k, v);
    ReachesCons(kind, s1, Fetch(t), Finish(t), Settled(k, v));
    ReachesCons(kind, s, TakeKnown(t), [Fetch(t)] + Finish(t), Settled(k, v));
  }

  // Two writers, each followed by a search: the second one's synchronisation starts while
  // the first one's holds the old document, and saves last.
  function OverlappingRun(k: Key, v1: Document, v2: Document): seq<Step> { StartUp(k) + (Begin(k, v1, v2) + End(k)) }

  function Begin(k: Key, v1: Document, v2: Document): seq<Step> {
    WriteAndFetch(Ticket(k, 0), v1) + WriteAndFetch(Ticket(k, 1), v2)
  }

  function End(k: Key): seq<Step> { Finish(Ticket(k, 0)) + Finish(Ticket(k, 1)) }

  // Both have read the store, the first one before and the second one after the last write.
  function Midway(k: Key, v0: Document, v1: Document, v2: Document): State {
    State(map[k := Record(v2, "")], {}, map[], Exactly(k, v0), multiset{},
          map[Ticket(k, 0) := Fetched(Some(v0), Some(v1)), Ticket(k, 1) := Fetched(None, Some(v2))])
  }

  function Overlapped(k: Key, v1: Document, v2: Document): State {
    State(map[k := Record(v2, "")], {}, map[k := v2], Both(k, v1, v2), multiset{}, map[])
  }

  lemma {:induction false} OverlapBegins(kind: Kind, k: Key, v0: Document, v1: Document, v2: Document)
    requires Fits(kind, k, v1) && Fits(kind, k, v2)
    ensures Reaches(kind, Settled(k, v0), Begin(k, v1, v2), Midway(k, v0, v1, v2))
  {
    var a, b, s := Ticket(k, 0), Ticket(k, 1), Settled(k, v0);
    WriteAndFetchReaches(kind, s, a, v1);
    var s' := State(map[k := Record(v1, "")], {}, map[], s.ix, multiset{}, map[a := Fetched(Some(v0), Some(v1))]);
    assert Refetched(s, a, v1) == s';
    WriteAndFetchReaches(kind, s', b, v2);
    assert Refetched(s', b, v2) == Midway(k, v0, v1, v2);
    ReachesConcat(kind, s, WriteAndFetch(a, v1), s', WriteAndFetch(b, v2), Midway(k, v0, v1, v2));
  }

  lemma {:induction false} OverlapEnds(kind: Kind, k: Key, v0: Document, v1: Document, v2: Document)
    requires Fits(kind, k, v0) && Fits(kind, k, v1) && Fits(kind, k, v2)
    ensures Reaches(kind, Midway(k, v0, v1, v2), End(k), Overlapped(k, v1, v2))
  {
    var a, b, s := Ticket(k, 0), Ticket(k, 1), Midway(k, v0, v1, v2);
    FinishReaches(kind, s, a, Some(v0), v1);
    Reindexing(kind, k, v0, v1);
    var s' := State(s.stored, {}, map[k := v1], Exactly(k, v1), multiset{}, map[b := Fetched(None, Some(v2))]);
    assert s.syncs - {a} == s'.syncs;
    assert Finished(kind, s, a, Some(v0), v1) == s';
    FinishReaches(kind, s', b, None, v2);
    FirstIndexing(kind, s'.ix, k, v2);
    assert s'.syncs - {b} == map[];
    assert Finished(kind, s', b, None, v2) == Overlapped(k, v1, v2);
    ReachesConcat(kind, s, Finish(a), s', Finish(b), Overlapped(k, v1, v2));
  }

  lemma {:induction false} OverlapReaches(kind: Kind, k: Key, v0: Document, v1: Document, v2: Document)
    requires Fits(kind, k, v0) && Fits(kind, k, v1) && Fits(kind, k, v2)
    ensures Reaches(kind, Init(map[k := Record(v0, "")]), OverlappingRun(k, v1, v2), Overlapped(k, v1, v2))
  {
    var s0, s1, s2 := Settled(k, v0), Midway(k, v0, v1, v2), Overlapped(k, v1, v2);
    StartUpReaches(kind, k, v0);
    OverlapBegins(kind, k, v0, v1, v2);
    OverlapEnds(kind, k, v0, v1, v2);
    ReachesConcat(kind, s0, Begin(k, v1, v2), s1, End(k), s2);
    ReachesConcat(kind, Init(map[k := Record(v0, "")]), StartUp(k), s0, Begin(k, v1, v2) + End(k), s2);
  }

  // An entry nobody knows of: it is neither stored nor known nor in any synchronisation's hands.
  ghost predicate Orphan(s: State, k: Key, d: Document) {
    && (k, d) in s.ix.fulltext && DocAt(s, k) != Some(d) && Lookup(s.known, k) != Some(d)
    && forall t | t in s.syncs && t.key == k :: !Mentions(s.syncs[t], d)
  }

  predicate Mentions(y: Sync, d: Document) {
    match y
    case Unmarked => false
    case Emptied(prev) => prev == Some(d)
    case Fetched(prev, next) => prev == Some(d) || next == Some(d)
    case Halfway(prev, next) => prev == Some(d) || next == Some(d)
    case Updated(next) => next == Some(d)
  }

  // From start-up, agents and roles alike, such a run comes to rest with nothing in flight
  // and nothing dirty, and the index still finds the key under a text that is not stored.
  lemma {:induction false} OverlappingSyncsGoStale(kind: Kind, k: Key, v0: Document, v1: Document, v2: Document)
    requires Fits(kind, k, v0) && Fits(kind, k, v1) && Fits(kind, k, v2) && v1 != v2
    ensures var stored, s := map[k := Record(v0, "")], Overlapped(k, v1, v2);
      && Reaches(kind, Init(stored), OverlappingRun(k, v1, v2), s)
      && Quiescent(s) && s.ix != Rebuild(s.stored) && Orphan(s, k, v1)
      && (v1[0] != v2[0] ==> (k, v1[0]) in s.ix.completion && !CompletionAt(s.ix, k, DocAt(s, k)))
  {
    OverlapReaches(kind, k, v0, v1, v2);
    var s := Overlapped(k, v1, v2);
    assert (k, v1) in s.ix.fulltext && (k, v1) !in Rebuild(s.stored).fulltext;
    assert v1[0] != v2[0] ==> (k, v1[0]) in s.ix.completion;
  }

  predicate Stores(step: Step, k: Key, d: Document) {
    step.Write? && step.k == k && step.record.Some? && step.record.value.doc == d
  }

  lemma {:induction false} OrphanStays(kind: Kind, s: State, step: Step, k: Key, d: Document)
    requires Orphan(s, k, d) && Enabled(kind, s, step) && !Stores(step, k, d)
    ensures Orphan(Apply(kind, s, step), k, d)
  {
    var s' := Apply(kind, s, step);
    if step.UpdateFirst? || step.UpdateSecond? {
      UpdateSpares(kind, s, step, k, d);
    }
    forall u | u in s'.syncs && u.key == k
      ensures !Mentions(s'.syncs[u], d)
    {
      assert u in s.syncs ==> !Mentions(s.syncs[u], d);
    }
  }

  lemma {:induction false} UpdateSpares(kind: Kind, s: State, step: Step, k: Key, d: Document)
    requires Orphan(s, k, d) && (step.UpdateFirst? || step.UpdateSecond?) && Enabled(kind, s, step)
    ensures (k, d) in Apply(kind, s, step).ix.fulltext
  {
    assert step.t.key == k ==> !Mentions(s.syncs[step.t], d);
  }

  // The stale entry outlives every further run, of any writers and synchronisations, in
  // which nobody stores exactly that document again.
  lemma {:induction false} OrphanStaysForGood(kind: Kind, s: State, steps: seq<Step>, s': State, k: Key, d: Document)
    requires Orphan(s, k, d) && Reaches(kind, s, steps, s')
    requires forall i | 0 <= i < |steps| :: !Stores(steps[i], k, d)
    ensures Orphan(s', k, d)
    decreases |steps|
  {
    if steps != [] {
      OrphanStays(kind, s, steps[0], k, d);
      OrphanStaysForGood(kind, Apply(kind, s, steps[0]), steps[1..], s', k, d);
    }
  }
}
