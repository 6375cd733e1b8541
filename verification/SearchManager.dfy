// The search manager's objects: one pair of indexes for the agents and one for the roles,
// each synchronised key by key from its dirty set.
module SearchManager {
  import opened Wrappers
  import opened SearchIndex

  class IndexPair {
    const kind: Kind
    var dirty: set<Key>
    var known: map<Key, Document>
    var ix: Indexes

    constructor (kind: Kind)
      ensures this.kind == kind && dirty == {} && known == map[] && ix == Indexes({}, {})
    {
      this.kind := kind;
      dirty := {};
      known := map[];
      ix := Indexes({}, {});
    }

    // The state of the index machine while nobody else is at work.
    ghost function Value(store: map<Key, Record>): State
      reads this
    {
      State(store, dirty, known, ix, multiset{}, map[])
    }

    method MarkDirty(k: Key)
      modifies this`dirty
      ensures dirty == old(dirty) + {k}
    {
      dirty := dirty + {k};
    }

    // Synchronise one agent; `current` is what reading its metadata gave.
    method ForceSyncIdentity(k: Key, current: Option<Document>)
      requires kind.Identity?
      modifies this`known, this`ix
      ensures ix == Resynced(kind, old(ix), k, Lookup(old(known), k), current)
      ensures known == Renewed(old(known), k, current)
    {
      var prev := Lookup(known, k);
      var wasIndexed := prev.Some?;
      known := known - {k};
      if current.Some? {
        var fulltextObsolete := true;
        if prev.Some? && prev.value == current.value {
          fulltextObsolete := false;
        }
        if fulltextObsolete {
          if prev.Some? {
            ix := ix.(fulltext := ix.fulltext - {(k, prev.value)});
          }
          ix := ix.(fulltext := ix.fulltext + {(k, current.value)});
        }
        if !wasIndexed {
          ix := ix.(completion := ix.completion + {(k, current.value[0])});
        }
        known := known[k := current.value];
      } else if prev.Some? {
        ix := ix.(fulltext := ix.fulltext - {(k, prev.value)});
        ix := ix.(completion := ix.completion - {(k, prev.value[0])});
      }
    }

    // Synchronise one role; the completion first, then the full text.
    method ForceSyncRole(k: Key, current: Option<Document>)
      requires kind.Role?
      requires AllFit(Role, k, Lookup(known, k)) && AllFit(Role, k, current)
      modifies this`known, this`ix
      ensures ix == Resynced(kind, old(ix), k, Lookup(old(known), k), current)
      ensures known == Renewed(old(known), k, current)
    {
      var prev := Lookup(known, k);
      known := known - {k};
      if current.Some? {
        var nameObsolete, fullNameObsolete, descriptionObsolete := true, true, true;
        if prev.Some? {
          nameObsolete := prev.value[0] != current.value[0];
          fullNameObsolete := prev.value[1] != current.value[1];
          descriptionObsolete := prev.value[2] != current.value[2];
        }
        if nameObsolete {
          if prev.Some? {
            ix := ix.(completion := ix.completion - {(k, prev.value[0])});
          }
          ix := ix.(completion := ix.completion + {(k, current.value[0])});
        }
        if nameObsolete || fullNameObsolete || descriptionObsolete {
          if prev.Some? {
            ix := ix.(fulltext := ix.fulltext - {(k, prev.value)});
          }
          ix := ix.(fulltext := ix.fulltext + {(k, current.value)});
        }
        known := known[k := current.value];
      } else if prev.Some? {
        ix := ix.(completion := ix.completion - {(k, prev.value[0])});
        ix := ix.(fulltext := ix.fulltext - {(k, prev.value)});
      }
    }

    // Synchronise a key that is marked: unmark first, then read.
    method Sync(k: Key, store: map<Key, Record>)
      requires Inv(kind, Value(store))
      modifies this
      ensures Inv(kind, Value(store)) && dirty == old(dirty) - {k}
    {
      if k in dirty {
        ghost var s := Value(store);
        assert KeyInv(kind, s, k);
        SyncIsSteps(kind, s, k);
        dirty := dirty - {k};
        var current := if k in store then Some(store[k].doc) else None;
        if kind.Identity? {
          ForceSyncIdentity(k, current);
        } else {
          ForceSyncRole(k, current);
        }
      }
    }

    // Drain the dirty set; afterwards both indexes equal a rebuild from the store.
    method SyncAll(store: map<Key, Record>)
      requires Inv(kind, Value(store))
      modifies this
      ensures dirty == {} && ix == Rebuild(store) && Inv(kind, Value(store))
    {
      while dirty != {}
        invariant Inv(kind, Value(store))
        decreases |dirty|
      {
        ghost var before := dirty;
        var keys := dirty;
        while keys != {}
          invariant Inv(kind, Value(store))
          invariant keys <= before && dirty == before * keys
          decreases |keys|
        {
          var k :| k in keys;
          keys := keys - {k};
          Sync(k, store);
        }
        assert |before| > 0;
      }
      QuiescentIsRebuilt(kind, Value(store));
    }
  }

  function Resynced(kind: Kind, ix: Indexes, k: Key, prev: Option<Document>, current: Option<Document>): Indexes {
    SecondUpdate(kind, FirstUpdate(kind, ix, k, prev, current), k, prev, current)
  }

  function Renewed(known: map<Key, Document>, k: Key, current: Option<Document>): map<Key, Document> {
    if current.Some? then (known - {k})[k := current.value] else known - {k}
  }

  // A synchronisation done in one go is its six steps one after the other: the first three
  // hold the old and the new document, the others bring the indexes up to date.
  lemma {:induction false} SyncIsSteps(kind: Kind, s: State, k: Key)
    requires Inv(kind, s) && k in s.dirty && s.syncs == map[]
    ensures Inv(kind, s.(dirty := s.dirty - {k}, known := Renewed(s.known, k, DocAt(s, k)),
                         ix := Resynced(kind, s.ix, k, Lookup(s.known, k), DocAt(s, k))))
  {
    var prev, next := Lookup(s.known, k), DocAt(s, k);
    FetchIsSteps(kind, s, k);
    var s3 := s.(dirty := s.dirty - {k}, known := s.known - {k}, syncs := map[Ticket(k, 0) := Fetched(prev, next)]);
    UpdateIsSteps(kind, s3, k, prev, next);
    assert Renewed(s3.known, k, next) == Renewed(s.known, k, next);
  }

  lemma {:induction false} FetchIsSteps(kind: Kind, s: State, k: Key)
    requires Inv(kind, s) && k in s.dirty && s.syncs == map[]
    ensures Inv(kind, s.(dirty := s.dirty - {k}, known := s.known - {k},
                         syncs := map[Ticket(k, 0) := Fetched(Lookup(s.known, k), DocAt(s, k))]))
  {
    var t := Ticket(k, 0);
    StepKeepsInv(kind, s, StartSync(t));
    var s1 := Apply(kind, s, StartSync(t));
    StepKeepsInv(kind, s1, TakeKnown(t));
    var s2 := Apply(kind, s1, TakeKnown(t));
    StepKeepsInv(kind, s2, Fetch(t));
    assert Apply(kind, s2, Fetch(t)).syncs == map[t := Fetched(Lookup(s.known, k), DocAt(s, k))];
  }

  lemma {:induction false} UpdateIsSteps(kind: Kind, s: State, k: Key, prev: Option<Document>, next: Option<Document>)
    requires Inv(kind, s) && s.syncs == map[Ticket(k, 0) := Fetched(prev, next)] && k !in s.known
    ensures Inv(kind, s.(known := Renewed(s.known, k, next), ix := Resynced(kind, s.ix, k, prev, next), syncs := map[]))
  {
    var t := Ticket(k, 0);
    StepKeepsInv(kind, s, UpdateFirst(t));
    var s1 := Apply(kind, s, UpdateFirst(t));
    StepKeepsInv(kind, s1, UpdateSecond(t));
    var s2 := Apply(kind, s1, UpdateSecond(t));
    StepKeepsInv(kind, s2, Save(t));
    assert Apply(kind, s2, Save(t)).syncs == map[];
    assert Apply(kind, s2, Save(t)).known == Renewed(s.known, k, next);
  }
}
