// What a session finds and leaves on disk around a crash: which caches can be continued,
// and that no file operation leaves the previous context without a complete copy.
module SessionCrashes {
  import opened Sequences
  import opened Wrappers
  import opened SessionModel
  import opened SessionSafety

  // ----- caches as they are found -----

  // Every line is a text and its newline.
  predicate Clean(f: File) { |f| % 2 == 0 && forall i | 0 <= i < |f| :: f[i].Text? <==> i % 2 == 0 }

  predicate EndsClean(f: File) { f == [] || f[|f| - 1].Newline? }

  // A file is what a writer of its messages would have written exactly when it is clean.
  lemma {:induction false} CleanIffWritten(f: File)
    ensures Clean(f) <==> f == Encode(Decode(f))
  {
    if Clean(f) {
      CleanIsWritten(f);
    }
    EncodeIsClean(Decode(f));
  }

  lemma {:induction false} CleanIsWritten(f: File)
    requires Clean(f)
    ensures f == Encode(Decode(f))
  {
    if f == [] {
      RoundTrip([]);
    } else {
      var m, rest := f[0].message, f[2..];
      assert Encode([m]) == [Text(m), Newline] && f == Encode([m]) + rest;
      DecodeAfter([m], rest);
      CleanIsWritten(rest);
      EncodeConcat([m], Decode(rest));
    }
  }

  lemma {:induction false} EncodeIsClean(ms: seq<Message>)
    ensures Clean(Encode(ms))
  {
    if ms != [] {
      var rest := Encode(ms[1..]);
      EncodeIsClean(ms[1..]);
      assert forall i | 2 <= i < |rest| + 2 :: Encode(ms)[i] == rest[i - 2];
    }
  }

  // A new session that recovers first is mirrored exactly when the cache it finds is
  // absent or clean; one that never recovers, when the cache is absent or empty.
  lemma {:induction false} RecoveredIsMirroredIffClean(files: Files)
    ensures Mirrored(Fresh(files).Recover()) <==> files.cache.None? || Clean(files.cache.value)
  {
    if files.cache.Some? {
      RecoverBuilds(Fresh(files));
      CleanIffWritten(files.cache.value);
    }
  }

  lemma {:induction false} FreshIsMirroredIffEmpty(files: Files)
    ensures Mirrored(Fresh(files)) <==> files.cache.None? || files.cache.value == []
  {
  }

  // ----- continuing a file -----

  // The lines of f and g together: all of f's but the last, which g continues.
  lemma {:induction false} LinesContinue(f: File, g: File, open: seq<Message>)
    ensures var ls := Lines(f, open);
      && ls != [] && Lines(f + g, open) == ls[..|ls| - 1] + Lines(g, ls[|ls| - 1])
  {
    if f == [] {
      assert [] + g == g;
    } else {
      assert (f + g)[1..] == f[1..] + g;
      match f[0]
      case Text(m) => LinesContinue(f[1..], g, open + [m]);
      case Newline =>
        LinesContinue(f[1..], g, []);
        var ls := Lines(f[1..], []);
        assert ([open] + ls)[..|ls|] == [open] + ls[..|ls| - 1];
    }
  }

  lemma {:induction false} LastLineIsOpen(f: File, open: seq<Message>)
    ensures var ls := Lines(f, open);
      && ls != [] && (ls[|ls| - 1] == [] <==> if f == [] then open == [] else f[|f| - 1].Newline?)
  {
    if f != [] {
      match f[0]
      case Text(m) => LastLineIsOpen(f[1..], open + [m]);
      case Newline => LastLineIsOpen(f[1..], []);
    }
  }

  // What the closed lines and the open one of f yield.
  lemma {:induction false} DecodeContinued(f: File, g: File)
    ensures var ls := Lines(f, []);
      && ls != []
      && Decode(f) == ParseAll(ls[..|ls| - 1]) + Parse(ls[|ls| - 1])
      && Decode(f + g) == ParseAll(ls[..|ls| - 1]) + ParseAll(Lines(g, ls[|ls| - 1]))
  {
    LinesContinue(f, g, []);
    var ls := Lines(f, []);
    ParseAllConcat(ls[..|ls| - 1], Lines(g, ls[|ls| - 1]));
  }

  // Behind a file that ends clean, anything is read as it would be alone.
  lemma {:induction false} DecodeAfterClean(f: File, g: File)
    requires EndsClean(f)
    ensures Decode(f + g) == Decode(f) + Decode(g)
  {
    LastLineIsOpen(f, []);
    DecodeContinued(f, g);
  }

  lemma {:induction false} LinesOfText(m: Message, f: File, open: seq<Message>)
    ensures Lines([Text(m)] + f, open) == Lines(f, open + [m])
  {
    assert ([Text(m)] + f)[1..] == f;
  }

  lemma {:induction false} LinesOfNewline(f: File, open: seq<Message>)
    ensures Lines([Newline] + f, open) == [open] + Lines(f, [])
  {
    assert ([Newline] + f)[1..] == f;
  }

  lemma {:induction false} ParseAllCons(line: seq<Message>, lines: seq<seq<Message>>)
    ensures ParseAll([line] + lines) == Parse(line) + ParseAll(lines)
  {
    ParseAllConcat([line], lines);
    assert ParseAll([line]) == ParseAll([]) + Parse(line);
  }

  lemma {:induction false} DecodeOnLine(line: seq<Message>, ms: seq<Message>)
    requires ms != []
    ensures ParseAll(Lines(Encode(ms), line)) == Parse(line + [ms[0]]) + ms[1..]
  {
    var rest := Encode(ms[1..]);
    assert Encode(ms) == [Text(ms[0])] + ([Newline] + rest);
    LinesOfText(ms[0], [Newline] + rest, line);
    LinesOfNewline(rest, line + [ms[0]]);
    ParseAllCons(line + [ms[0]], Lines(rest, []));
    RoundTrip(ms[1..]);
  }

  // Messages written behind a file are read back behind its own if and only if the file is
  // empty or ends with a newline.
  lemma {:induction false} AppendIsReadableIff(f: File, ms: seq<Message>)
    requires ms != []
    ensures Decode(f + Encode(ms)) == Decode(f) + ms <==> EndsClean(f)
  {
    if EndsClean(f) {
      DecodeAfterClean(f, Encode(ms));
      RoundTrip(ms);
    } else {
      LastLineIsOpen(f, []);
      DecodeContinued(f, Encode(ms));
      var ls := Lines(f, []);
      DecodeOnLine(ls[|ls| - 1], ms);
      assert |Decode(f + Encode(ms))| < |Decode(f)| + |ms|;
    }
  }

  // The smallest case: a text without its newline is recovered, but the next append writes
  // onto the same line and the cache then yields neither message.
  lemma {:induction false} UnfinishedLineLosesTwo(ms: seq<Message>, m: Message, n: Message, history: map<Stamp, File>)
    ensures var c := Fresh(Files(Some(Encode(ms) + [Text(m)]), history)).Recover();
      && c.Build() == ms + [m]
      && c.Append([n]).files.cache.Some? && Decode(c.Append([n]).files.cache.value) == ms
  {
    var f := Encode(ms) + [Text(m)];
    var c := Fresh(Files(Some(f), history)).Recover();
    DecodeAfter(ms, [Text(m)]);
    OpenLine(m);
    RecoverBuilds(Fresh(Files(Some(f), history)));
    AppendToCache(c, [n]);
    assert f + Encode([n]) == Encode(ms) + ([Text(m)] + Encode([n]));
    DecodeAfter(ms, [Text(m)] + Encode([n]));
    DecodeContinued([Text(m)], Encode([n]));
    DecodeOnLine([m], [n]);
    assert ms + [] == ms;
  }

  lemma {:induction false} OpenLine(m: Message)
    ensures Lines([Text(m)], []) == [[m]] && Decode([Text(m)]) == [m]
  {
    assert [Text(m)][1..] == [] && [] + [m] == [m];
    assert ParseAll([[m]]) == ParseAll([]) + Parse([m]);
  }

  // ----- a weaker invariant, which every recovery establishes -----

  ghost predicate Readable(c: Context) {
    match c.files.cache
    case None => c.messages == []
    case Some(f) => Decode(f) == c.Build()
  }

  // Not an append onto an unfinished line.
  ghost predicate Continues(c: Context, op: Op) {
    op.AppendMessages? && op.messages != [] && c.files.cache.Some? ==> EndsClean(c.files.cache.value)
  }

  lemma {:induction false} MirroredIsReadable(c: Context, op: Op)
    requires Mirrored(c)
    ensures Readable(c) && Continues(c, op)
  {
    if c.files.cache.Some? {
      RoundTrip(c.Build());
      EncodeIsClean(c.Build());
    }
  }

  lemma {:induction false} RecoveredIsReadable(files: Files)
    ensures Readable(Fresh(files).Recover())
  {
    if files.cache.Some? {
      RecoverBuilds(Fresh(files));
    }
  }

  // A step from a readable state leaves a readable one if and only if it does not append
  // onto an unfinished line.
  lemma {:induction false} StepKeepsReadableIff(c: Context, op: Op)
    requires Readable(c)
    ensures Readable(Step(c, op)) <==> Continues(c, op)
  {
    match op
    case SetSystem(_) =>
    case BuildContext(now) =>
      if c.Switches() {
        ArchiveEffect(c, now);
        if c.messages != [] {
          WriteCurrentEffect(c.Switched(now));
          RoundTrip(c.Switched(now).Build());
        }
      }
    case AppendMessages(ms) => AppendKeepsReadableIff(c, ms);
    case RevertMessages(count, now) =>
      var k := |c.messages| - Least(count, |c.messages|);
      if k < |c.messages| {
        var d := c.Archive(now).(messages := c.messages[..k]);
        ArchiveEffect(c, now);
        WriteCurrentEffect(d);
        RoundTrip(d.Build());
      }
    case ResetMessages(ms, now) =>
      var d := c.Archive(now).(messages := []);
      ArchiveEffect(c, now);
      AppendKeepsReadableIff(d, ms);
    case RecoverFromCache =>
      if c.files.cache.Some? {
        RecoverBuilds(c);
      }
  }

  lemma {:induction false} AppendKeepsReadableIff(c: Context, ms: seq<Message>)
    requires Readable(c)
    ensures Readable(c.Append(ms)) <==> Continues(c, AppendMessages(ms))
  {
    AppendBuilds(c, ms);
    if ms == [] {
      assert c.messages + [] == c.messages;
    } else if c.files.cache.None? {
      AppendToNothing(c, ms);
      RoundTrip(c.Append(ms).Build());
    } else {
      AppendToCache(c, ms);
      AppendIsReadableIff(c.files.cache.value, ms);
    }
  }

  // ----- crash points -----

  // ctx is complete at the head of the cache, or is one whole history file.
  ghost predicate Holds(d: Files, ctx: seq<Message>) {
    || (d.cache.Some? && ctx <= Decode(d.cache.value))
    || exists t :: t in d.history && Decode(d.history[t]) == ctx
  }

  predicate OnlyExtendsCache(op: FileOp) { !op.RemoveCache? }

  predicate LeavesCache(op: FileOp) { op.OpenHistory? || op.WriteHistory? }

  lemma {:induction false} ExtendingKeepsPrefix(d: Files, ops: seq<FileOp>, f: File)
    requires d.cache.Some? && f <= d.cache.value && forall op | op in ops :: OnlyExtendsCache(op)
    ensures PerformAll(d, ops).cache.Some? && f <= PerformAll(d, ops).cache.value
    decreases |ops|
  {
    if ops != [] {
      assert OnlyExtendsCache(ops[0]);
      ExtendingKeepsPrefix(Perform(d, ops[0]), ops[1..], f);
    }
  }

  lemma {:induction false} HistoryOpsKeepCache(d: Files, ops: seq<FileOp>)
    requires forall op | op in ops :: LeavesCache(op)
    ensures PerformAll(d, ops).cache == d.cache
    decreases |ops|
  {
    if ops != [] {
      assert LeavesCache(ops[0]);
      HistoryOpsKeepCache(Perform(d, ops[0]), ops[1..]);
    }
  }

  lemma HistoryLinesLeaveCache(t: Stamp, ms: seq<Message>)
    ensures forall op | op in HistoryLines(t, ms) :: LeavesCache(op)
  {
  }

  // While archiving, the cache holds the context until the history file does.
  lemma {:induction false} ArchiveThenWriteHolds(c: Context, now: Stamp, rest: seq<FileOp>, k: nat)
    requires Readable(c) && c.messages != [] && k <= |c.ArchiveOps(now) + rest|
    requires forall op | op in rest :: LeavesHistory(op)
    ensures Holds(PerformAll(c.files, (c.ArchiveOps(now) + rest)[..k]), c.Build())
  {
    var archive := c.ArchiveOps(now);
    PerformPrefix(c.files, archive, rest, k);
    if k < |archive| {
      HistoryLinesLeaveCache(now, c.Build());
      assert archive == [OpenHistory(now)] + HistoryLines(now, c.Build()) + [RemoveCache];
      assert forall op | op in archive[..k] :: LeavesCache(op);
      HistoryOpsKeepCache(c.files, archive[..k]);
    } else {
      ArchiveEffect(c, now);
      assert archive[..|archive|] == archive;
      var d, tail := PerformAll(c.files, archive), rest[..k - |archive|];
      CacheOpsKeepHistory(d, tail);
      RoundTrip(c.Build());
      assert PerformAll(d, tail).history[now] == Encode(c.Build());
    }
  }

  // While appending to a cache that ends clean, what it held stays at its head.
  lemma {:induction false} AppendingHolds(c: Context, ms: seq<Message>, k: nat)
    requires Readable(c) && c.messages != [] && Continues(c, AppendMessages(ms)) && k <= |c.AppendOps(ms)|
    ensures Holds(PerformAll(c.files, c.AppendOps(ms)[..k]), c.Build())
  {
    if ms != [] {
      var ops, f := c.AppendOps(ms)[..k], c.files.cache.value;
      CacheLinesAreCacheOps(ms);
      assert c.OpenOps() == [OpenCache];
      assert forall op | op in c.AppendOps(ms) :: OnlyExtendsCache(op);
      ExtendingKeepsPrefix(c.files, ops, f);
      var g := PerformAll(c.files, ops).cache.value;
      assert g == f + g[|f|..];
      DecodeAfterClean(f, g[|f|..]);
    }
  }

  // At every file operation of every step the context before the step survives on disk,
  // also when the cache was written by a session that crashed.
  lemma {:induction false} CrashLosesNothing(c: Context, op: Op, k: nat)
    requires Readable(c) && Continues(c, op) && c.messages != [] && k <= |StepOps(c, op)|
    ensures Holds(PerformAll(c.files, StepOps(c, op)[..k]), c.Build())
  {
    match op {
      case ResetMessages(ms, now) =>
        CacheLinesAreCacheOps(ms);
        if c.system.Some? {
          CacheLinesAreCacheOps([System(c.system.value)]);
        }
        ArchiveThenWriteHolds(c, now, c.Archive(now).(messages := []).AppendOps(ms), k);
      case BuildContext(now) =>
        if c.Switches() {
          WriteCurrentIsCacheOps(c.Switched(now));
          ArchiveThenWriteHolds(c, now, c.Switched(now).WriteCurrentOps(), k);
        }
      case RevertMessages(count, now) =>
        var keep := |c.messages| - Least(count, |c.messages|);
        if keep < |c.messages| {
          var d := c.Archive(now).(messages := c.messages[..keep]);
          WriteCurrentIsCacheOps(d);
          ArchiveThenWriteHolds(c, now, d.WriteCurrentOps(), k);
        }
      case AppendMessages(ms) => AppendingHolds(c, ms, k);
      case SetSystem(_) =>
      case RecoverFromCache =>
    }
  }

  // In every state a session reaches from a mirrored one, at every file operation of every
  // step, nothing is lost.
  lemma {:induction false} ReachableCrashLosesNothing(c: Context, ops: seq<Op>, op: Op, k: nat)
    requires Mirrored(c) && k <= |StepOps(Run(c, ops), op)|
    ensures var r := Run(c, ops);
            r.messages != [] ==> Holds(PerformAll(r.files, StepOps(r, op)[..k]), r.Build())
  {
    var r := Run(c, ops);
    ReachableIsRecoverable(c, ops);
    MirroredIsReadable(r, op);
    if r.messages != [] {
      CrashLosesNothing(r, op, k);
    }
  }

  // ----- runs with crashes -----

  // A step is done, or the program stops after k of its file operations and a new session
  // recovers from what is on disk.
  datatype Event = Done(op: Op) | Crashed(op: Op, k: nat)

  function After(c: Context, e: Event): Context {
    match e
    case Done(op) => Step(c, op)
    case Crashed(op, k) => Fresh(PerformAll(c.files, StepOps(c, op)[..Least(k, |StepOps(c, op)|)])).Recover()
  }

  function AfterAll(c: Context, events: seq<Event>): Context {
    if events == [] then c else After(AfterAll(c, events[..|events| - 1]), events[|events| - 1])
  }

  ghost predicate ContinuesAll(c: Context, events: seq<Event>)
    decreases |events|
  {
    events != [] ==>
      && ContinuesAll(c, events[..|events| - 1])
      && Continues(AfterAll(c, events[..|events| - 1]), events[|events| - 1].op)
  }

  // However often a session crashes and recovers, as long as nothing is appended onto an
  // unfinished line: the memory is what the cache yields, and the context before the last
  // event is still complete on disk after it.
  lemma {:induction false} CrashingRunLosesNothing(c: Context, events: seq<Event>)
    requires Readable(c) && ContinuesAll(c, events)
    ensures Readable(AfterAll(c, events))
    ensures events != [] ==>
              var before := AfterAll(c, events[..|events| - 1]);
              before.messages != [] ==> Holds(AfterAll(c, events).files, before.Build())
    decreases |events|
  {
    if events != [] {
      var before, e := AfterAll(c, events[..|events| - 1]), events[|events| - 1];
      CrashingRunLosesNothing(c, events[..|events| - 1]);
      EventLosesNothing(before, e);
    }
  }

  lemma {:induction false} EventLosesNothing(c: Context, e: Event)
    requires Readable(c) && Continues(c, e.op)
    ensures Readable(After(c, e))
    ensures c.messages != [] ==> Holds(After(c, e).files, c.Build())
  {
    var ops := StepOps(c, e.op);
    var k := if e.Done? then |ops| else Least(e.k, |ops|);
    assert ops[..|ops|] == ops;
    StepPerformsItsOps(c, e.op);
    if c.messages != [] {
      CrashLosesNothing(c, e.op, k);
    }
    if e.Done? {
      StepKeepsReadableIff(c, e.op);
    } else {
      RecoveredIsReadable(PerformAll(c.files, ops[..k]));
      assert After(c, e).files == PerformAll(c.files, ops[..k]);
    }
  }
}
