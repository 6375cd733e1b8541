// What a session keeps in every reachable state: the cache mirrors the memory, and so a
// fresh session recovers the same list.
module SessionSafety {
  import opened Sequences
  import opened Wrappers
  import opened SessionModel

  // ----- the line format reads back what it wrote -----

  lemma {:induction false} LinesConcat(a: seq<Message>, f: File)
    ensures Lines(Encode(a) + f, []) == LinesOf(a) + Lines(f, [])
  {
    if a == [] {
      assert Encode(a) + f == f;
    } else {
      var g := Encode(a[1..]) + f;
      assert Encode(a) + f == [Text(a[0]), Newline] + g;
      assert (Encode(a) + f)[1..] == [Newline] + g;
      assert ([Newline] + g)[1..] == g;
      assert [] + [a[0]] == [a[0]];
      LinesConcat(a[1..], f);
    }
  }

  function LinesOf(a: seq<Message>): seq<seq<Message>> {
    if a == [] then [] else [[a[0]]] + LinesOf(a[1..])
  }

  lemma {:induction false} ParseAllConcat(a: seq<seq<Message>>, b: seq<seq<Message>>)
    ensures ParseAll(a + b) == ParseAll(a) + ParseAll(b)
  {
    if b == [] {
      assert a + b == a;
    } else {
      var init := b[..|b| - 1];
      assert (a + b)[..|a + b| - 1] == a + init;
      ParseAllConcat(a, init);
    }
  }

  lemma {:induction false} ParseLinesOf(a: seq<Message>)
    ensures ParseAll(LinesOf(a)) == a
  {
    if a != [] {
      ParseLinesOf(a[1..]);
      ParseAllConcat([[a[0]]], LinesOf(a[1..]));
      assert ParseAll([[a[0]]]) == [a[0]];
    }
  }

  // Whatever follows the lines of `a`, reading yields `a` first.
  lemma DecodeAfter(a: seq<Message>, f: File)
    ensures Decode(Encode(a) + f) == a + Decode(f)
  {
    LinesConcat(a, f);
    ParseAllConcat(LinesOf(a), Lines(f, []));
    ParseLinesOf(a);
  }

  lemma RoundTrip(a: seq<Message>)
    ensures Decode(Encode(a)) == a
  {
    DecodeAfter(a, []);
    assert Encode(a) + [] == Encode(a);
    assert ParseAll([[]]) == [];
  }

  lemma {:induction false} EncodeConcat(a: seq<Message>, b: seq<Message>)
    ensures Encode(a + b) == Encode(a) + Encode(b)
  {
    if a == [] {
      assert a + b == b;
    } else {
      assert (a + b)[1..] == a[1..] + b;
      EncodeConcat(a[1..], b);
    }
  }

  // ----- sequences of file operations -----

  lemma {:induction false} PerformConcat(d: Files, a: seq<FileOp>, b: seq<FileOp>)
    ensures PerformAll(d, a + b) == PerformAll(PerformAll(d, a), b)
    decreases |a|
  {
    if a == [] {
      assert a + b == b;
    } else {
      assert (a + b)[1..] == a[1..] + b;
      PerformConcat(Perform(d, a[0]), a[1..], b);
    }
  }

  // Every intermediate state of a ++ b is one of a, or one of b after a.
  lemma PerformPrefix(d: Files, a: seq<FileOp>, b: seq<FileOp>, k: nat)
    requires k <= |a + b|
    ensures k <= |a| ==> PerformAll(d, (a + b)[..k]) == PerformAll(d, a[..k])
    ensures k > |a| ==> PerformAll(d, (a + b)[..k]) == PerformAll(PerformAll(d, a), b[..k - |a|])
  {
    if k <= |a| {
      assert (a + b)[..k] == a[..k];
    } else {
      assert (a + b)[..k] == a + b[..k - |a|];
      PerformConcat(d, a, b[..k - |a|]);
    }
  }

  lemma {:induction false} CacheLinesEffect(d: Files, ms: seq<Message>)
    requires d.cache.Some?
    ensures PerformAll(d, CacheLines(ms)) == d.(cache := Some(d.cache.value + Encode(ms)))
    decreases |ms|
  {
    if ms == [] {
      assert d.cache.value + Encode(ms) == d.cache.value;
    } else {
      var two := [WriteCache(Text(ms[0])), WriteCache(Newline)];
      var d' := d.(cache := Some(d.cache.value + [Text(ms[0]), Newline]));
      PerformTwo(d, WriteCache(Text(ms[0])), WriteCache(Newline));
      assert d.cache.value + [Text(ms[0])] + [Newline] == d.cache.value + [Text(ms[0]), Newline];
      PerformConcat(d, two, CacheLines(ms[1..]));
      CacheLinesEffect(d', ms[1..]);
      assert d'.cache.value + Encode(ms[1..]) == d.cache.value + Encode(ms);
    }
  }

  lemma PerformTwo(d: Files, a: FileOp, b: FileOp)
    ensures PerformAll(d, [a, b]) == Perform(Perform(d, a), b)
  {
    assert [a, b][1..] == [b];
    PerformOne(Perform(d, a), b);
  }

  lemma PerformOne(d: Files, a: FileOp)
    ensures PerformAll(d, [a]) == Perform(d, a)
  {
    assert [a][1..] == [];
  }

  lemma {:induction false} HistoryLinesEffect(d: Files, t: Stamp, ms: seq<Message>)
    requires t in d.history
    ensures PerformAll(d, HistoryLines(t, ms)) == d.(history := d.history[t := d.history[t] + Encode(ms)])
    decreases |ms|
  {
    if ms == [] {
      assert d.history[t] + Encode(ms) == d.history[t];
      assert d.history == d.history[t := d.history[t]];
    } else {
      var d' := d.(history := d.history[t := d.history[t] + [Text(ms[0]), Newline]]);
      HistoryLineEffect(d, t, ms[0]);
      PerformConcat(d, [WriteHistory(t, Text(ms[0])), WriteHistory(t, Newline)], HistoryLines(t, ms[1..]));
      HistoryLinesEffect(d', t, ms[1..]);
      var whole := d.history[t] + Encode(ms);
      assert d'.history[t] + Encode(ms[1..]) == whole;
      assert d'.history[t := whole] == d.history[t := whole];
    }
  }

  lemma {:induction false} HistoryLineEffect(d: Files, t: Stamp, m: Message)
    requires t in d.history
    ensures PerformAll(d, [WriteHistory(t, Text(m)), WriteHistory(t, Newline)]) ==
            d.(history := d.history[t := d.history[t] + [Text(m), Newline]])
  {
    var h := d.history;
    PerformTwo(d, WriteHistory(t, Text(m)), WriteHistory(t, Newline));
    assert h[t] + [Text(m)] + [Newline] == h[t] + [Text(m), Newline];
    assert h[t := h[t] + [Text(m)]][t := h[t] + [Text(m), Newline]] == h[t := h[t] + [Text(m), Newline]];
  }

  // ----- the invariant -----

  // No cache file means no messages; otherwise the cache is the optional system line
  // followed by the messages.
  ghost predicate Mirrored(c: Context) {
    match c.files.cache
    case None => c.messages == []
    case Some(f) => f == Encode(c.Build())
  }

  // Writing everything into a removed cache mirrors the memory.
  lemma WriteCurrentEffect(c: Context)
    requires c.files.cache.None?
    ensures PerformAll(c.files, c.WriteCurrentOps()) == c.files.(cache := Some(Encode(c.Build())))
  {
    var open := c.files.(cache := Some([]));
    PerformOne(c.files, OpenCache);
    var head := if c.system.Some? then [System(c.system.value)] else [];
    CacheLinesEffect(open, head);
    var headed := open.(cache := Some([] + Encode(head)));
    CacheLinesEffect(headed, c.messages);
    PerformConcat(c.files, [OpenCache], CacheLines(head));
    PerformConcat(c.files, c.OpenOps(), CacheLines(c.messages));
    assert c.OpenOps() == [OpenCache] + CacheLines(head);
    EncodeConcat(head, c.messages);
    assert [] + Encode(head) + Encode(c.messages) == Encode(c.Build());
  }

  lemma AppendEffect(c: Context, ms: seq<Message>)
    requires Mirrored(c)
    ensures Mirrored(c.Append(ms))
    ensures c.Append(ms).files.history == c.files.history
  {
    if ms == [] {
      assert c.messages + ms == c.messages;
      assert c.Append(ms) == c;
    } else if c.files.cache.None? {
      AppendToNothing(c, ms);
    } else {
      AppendToMirror(c, ms);
    }
  }

  lemma AppendToMirror(c: Context, ms: seq<Message>)
    requires c.files.cache == Some(Encode(c.Build())) && ms != []
    ensures c.Append(ms).files == c.files.(cache := Some(Encode(c.Append(ms).Build())))
  {
    var d := c.Append(ms);
    AppendToCache(c, ms);
    EncodeConcat(c.Build(), ms);
    AppendBuilds(c, ms);
  }

  lemma AppendBuilds(c: Context, ms: seq<Message>)
    ensures c.Append(ms).Build() == c.Build() + ms
  {
  }

  lemma AppendToNothing(c: Context, ms: seq<Message>)
    requires c.files.cache.None? && c.messages == [] && ms != []
    ensures c.Append(ms) == c.(messages := ms, files := c.files.(cache := Some(Encode(c.(messages := ms).Build()))))
  {
    var d := c.(messages := ms);
    assert c.messages + ms == ms;
    assert c.AppendOps(ms) == d.WriteCurrentOps();
    WriteCurrentEffect(d);
  }

  lemma ArchiveEffect(c: Context, now: Stamp)
    ensures PerformAll(c.files, c.ArchiveOps(now)) ==
            Files(None, if c.messages == [] then c.files.history else c.files.history[now := Encode(c.Build())])
  {
    if c.messages == [] {
      PerformOne(c.files, RemoveCache);
      assert c.ArchiveOps(now) == [RemoveCache];
    } else {
      var d := Perform(c.files, OpenHistory(now));
      PerformOne(c.files, OpenHistory(now));
      HistoryLinesEffect(d, now, c.Build());
      PerformConcat(c.files, [OpenHistory(now)], HistoryLines(now, c.Build()));
      var d' := PerformAll(c.files, [OpenHistory(now)] + HistoryLines(now, c.Build()));
      PerformConcat(c.files, [OpenHistory(now)] + HistoryLines(now, c.Build()), [RemoveCache]);
      PerformOne(d', RemoveCache);
      assert [] + Encode(c.Build()) == Encode(c.Build());
      assert d'.history == c.files.history[now := Encode(c.Build())];
    }
  }

  // Recovering builds what the cache yields, unless a system message in memory meets a
  // cache without one.
  lemma RecoverBuilds(c: Context)
    requires c.files.cache.Some?
    requires var ms := Decode(c.files.cache.value); c.system.None? || (ms != [] && ms[0].System?)
    ensures c.Recover().Build() == Decode(c.files.cache.value)
  {
    var ms := Decode(c.files.cache.value);
    if ms != [] && ms[0].System? {
      assert [System(ms[0].content)] + ms[1..] == ms;
    } else {
      assert [] + ms == ms;
    }
  }

  lemma RecoverEffect(c: Context)
    requires Mirrored(c)
    ensures Mirrored(c.Recover())
    ensures c.files.cache.Some? ==> c.Recover().Build() == c.Build()
  {
    if c.files.cache.Some? {
      RoundTrip(c.Build());
      RecoverBuilds(c);
    }
  }

  // Every step keeps the invariant, whatever the clock shows.
  lemma StepKeepsMirror(c: Context, op: Op)
    requires Mirrored(c)
    ensures Mirrored(Step(c, op))
  {
    match op
    case SetSystem(_) =>
    case BuildContext(now) =>
      if c.Switches() {
        ArchiveEffect(c, now);
        if c.messages != [] {
          WriteCurrentEffect(c.Switched(now));
        }
      }
    case AppendMessages(ms) => AppendEffect(c, ms);
    case RevertMessages(count, now) =>
      var k := |c.messages| - Least(count, |c.messages|);
      if k < |c.messages| {
        ArchiveEffect(c, now);
        WriteCurrentEffect(c.Archive(now).(messages := c.messages[..k]));
      }
    case ResetMessages(ms, now) =>
      ArchiveEffect(c, now);
      AppendEffect(c.Archive(now).(messages := []), ms);
    case RecoverFromCache => RecoverEffect(c);
  }

  // In every state a session reaches from a mirrored one, the cache mirrors the memory,
  // and a fresh session that recovers from it builds the same list if any message exists.
  lemma {:induction false} ReachableIsRecoverable(c: Context, ops: seq<Op>)
    requires Mirrored(c)
    ensures Mirrored(Run(c, ops))
    ensures Run(c, ops).messages != [] ==> Fresh(Run(c, ops).files).Recover().Build() == Run(c, ops).Build()
    decreases |ops|
  {
    if ops != [] {
      ReachableIsRecoverable(c, ops[..|ops| - 1]);
      StepKeepsMirror(Run(c, ops[..|ops| - 1]), ops[|ops| - 1]);
    }
    var r := Run(c, ops);
    if r.messages != [] {
      RoundTrip(r.Build());
      RecoverBuilds(Fresh(r.files));
    }
  }

  // Appending to an existing cache adds the new lines and nothing else.
  lemma {:induction false} AppendToCache(c: Context, ms: seq<Message>)
    requires c.files.cache.Some? && ms != []
    ensures c.Append(ms).files == c.files.(cache := Some(c.files.cache.value + Encode(ms)))
  {
    PerformOne(c.files, OpenCache);
    assert c.OpenOps() == [OpenCache];
    PerformConcat(c.files, [OpenCache], CacheLines(ms));
    CacheLinesEffect(c.files, ms);
  }

  // ----- operations on one file only -----

  predicate LeavesHistory(op: FileOp) { !op.OpenHistory? && !op.WriteHistory? }

  lemma {:induction false} CacheOpsKeepHistory(d: Files, ops: seq<FileOp>)
    requires forall op | op in ops :: LeavesHistory(op)
    ensures PerformAll(d, ops).history == d.history
    decreases |ops|
  {
    if ops != [] {
      assert LeavesHistory(ops[0]);
      CacheOpsKeepHistory(Perform(d, ops[0]), ops[1..]);
    }
  }

  lemma CacheLinesAreCacheOps(ms: seq<Message>)
    ensures forall op | op in CacheLines(ms) :: op.WriteCache?
  {
  }

  lemma WriteCurrentIsCacheOps(c: Context)
    ensures forall op | op in c.WriteCurrentOps() :: LeavesHistory(op)
  {
    CacheLinesAreCacheOps(c.messages);
    if c.system.Some? {
      CacheLinesAreCacheOps([System(c.system.value)]);
    }
  }

  // The file operations of a step are exactly what the step does to the files.
  lemma StepPerformsItsOps(c: Context, op: Op)
    ensures Step(c, op).files == PerformAll(c.files, StepOps(c, op))
  {
    match op
    case BuildContext(now) =>
      if c.Switches() {
        assert c.messages == [] ==> c.ArchiveOps(now) + [] == c.ArchiveOps(now);
        PerformConcat(c.files, c.ArchiveOps(now), c.Switched(now).WriteCurrentOps());
      }
    case ResetMessages(ms, now) =>
      PerformConcat(c.files, c.ArchiveOps(now), c.Archive(now).(messages := []).AppendOps(ms));
    case RevertMessages(count, now) =>
      var k := |c.messages| - Least(count, |c.messages|);
      if k < |c.messages| {
        PerformConcat(c.files, c.ArchiveOps(now), c.Archive(now).(messages := c.messages[..k]).WriteCurrentOps());
      }
    case _ =>
  }
}
