// The session context as the program has it: an object with its messages, working on a
// data directory one file operation at a time.
module SessionObject {
  import opened Sequences
  import opened Wrappers
  import opened SessionModel
  import opened SessionSafety
  import opened SessionHistory

  // The two files of one session. `log` records the file operations performed.
  class DataDir {
    var files: Files
    ghost var log: seq<FileOp>

    constructor (files: Files)
      ensures this.files == files && log == []
    {
      this.files := files;
      log := [];
    }

    method Do(op: FileOp)
      modifies this
      ensures files == Perform(old(files), op) && log == old(log) + [op]
    {
      files := Perform(files, op);
      log := log + [op];
    }
  }

  // A revert of c in progress: untouched, or archived with some messages dropped.
  ghost predicate Reverting(c: Context, log0: seq<FileOp>, value: Context, log: seq<FileOp>, now: Stamp, backup: bool) {
    if backup then
      && |value.messages| < |c.messages| && value == c.Archive(now).(messages := value.messages)
      && log == log0 + c.ArchiveOps(now)
    else value == c && log == log0
  }

  lemma KeepCountNext<S>(ms: seq<Message>, condition: (S, Message) -> (S, bool), s: S)
    requires ms != [] && !condition(s, ms[|ms| - 1]).1
    ensures KeepCount(ms, condition, s) == KeepCount(ms[..|ms| - 1], condition, condition(s, ms[|ms| - 1]).0)
  {
  }

  // A switch archives, and then writes the memory back if there is any.
  lemma {:induction false} SwitchOps(c: Context, now: Stamp)
    requires c.Switches()
    ensures c.messages == [] ==> c.ApplyPending(now) == c.Switched(now) && c.ApplyPendingOps(now) == c.ArchiveOps(now)
    ensures c.messages != [] ==>
              && c.ApplyPending(now) == c.Switched(now).Do(c.Switched(now).WriteCurrentOps())
              && c.ApplyPendingOps(now) == c.ArchiveOps(now) + c.Switched(now).WriteCurrentOps()
  {
  }

  lemma MoveLast(ms: seq<Message>, dropped: seq<Message>)
    requires ms != []
    ensures ms[..|ms| - 1] + ([ms[|ms| - 1]] + dropped) == ms + dropped
  {
  }

  lemma SplitAt(ms: seq<Message>, dropped: seq<Message>)
    ensures (ms + dropped)[..|ms|] == ms && (ms + dropped)[|ms|..] == dropped
  {
  }

  class SessionContext {
    var messages: seq<Message>
    var systemMessage: Option<string>
    var pendingSystem: Option<string>
    const dir: DataDir

    ghost function Value(): Context
      reads this, dir
    {
      Context(messages, systemMessage, pendingSystem, dir.files)
    }

    constructor (dir: DataDir)
      ensures this.dir == dir && Value() == Fresh(dir.files)
    {
      messages := [];
      systemMessage := None;
      pendingSystem := None;
      this.dir := dir;
    }

    // Only the pending slot changes until the next send.
    method SetSystemMessage(content: string)
      modifies this
      ensures Value() == Step(old(Value()), SetSystem(content))
    {
      pendingSystem := Some(content);
    }

    method Build() returns (items: seq<Message>)
      ensures items == Value().Build()
    {
      items := [];
      if systemMessage.Some? {
        items := items + [System(systemMessage.value)];
      }
      items := items + messages;
    }

    // One line per message: the text, then its newline.
    method WriteCacheLines(ms: seq<Message>)
      modifies dir
      ensures dir.log == old(dir.log) + CacheLines(ms)
      ensures dir.files == PerformAll(old(dir.files), CacheLines(ms))
    {
      ghost var done: seq<FileOp> := [];
      for i := 0 to |ms|
        invariant CacheLines(ms) == done + CacheLines(ms[i..])
        invariant dir.log == old(dir.log) + done
        invariant dir.files == PerformAll(old(dir.files), done)
      {
        ghost var two := [WriteCache(Text(ms[i])), WriteCache(Newline)];
        ghost var before := dir.files;
        dir.Do(WriteCache(Text(ms[i])));
        dir.Do(WriteCache(Newline));
        PerformTwo(before, two[0], two[1]);
        PerformConcat(old(dir.files), done, two);
        assert ms[i..][1..] == ms[i + 1..];
        assert done + (two + CacheLines(ms[i + 1..])) == done + two + CacheLines(ms[i + 1..]);
        done := done + two;
      }
      assert done == CacheLines(ms);
    }

    method WriteHistoryLines(t: Stamp, ms: seq<Message>)
      modifies dir
      ensures dir.log == old(dir.log) + HistoryLines(t, ms)
      ensures dir.files == PerformAll(old(dir.files), HistoryLines(t, ms))
    {
      ghost var done: seq<FileOp> := [];
      for i := 0 to |ms|
        invariant HistoryLines(t, ms) == done + HistoryLines(t, ms[i..])
        invariant dir.log == old(dir.log) + done
        invariant dir.files == PerformAll(old(dir.files), done)
      {
        ghost var two := [WriteHistory(t, Text(ms[i])), WriteHistory(t, Newline)];
        ghost var before := dir.files;
        dir.Do(WriteHistory(t, Text(ms[i])));
        dir.Do(WriteHistory(t, Newline));
        PerformTwo(before, two[0], two[1]);
        PerformConcat(old(dir.files), done, two);
        assert ms[i..][1..] == ms[i + 1..];
        assert done + (two + HistoryLines(t, ms[i + 1..])) == done + two + HistoryLines(t, ms[i + 1..]);
        done := done + two;
      }
      assert done == HistoryLines(t, ms);
    }

    // Open the cache for appending; a new file starts with the system line.
    method OpenCacheAndWriteSystemLine()
      modifies dir
      ensures dir.log == old(dir.log) + old(Value()).OpenOps()
      ensures dir.files == PerformAll(old(dir.files), old(Value()).OpenOps())
    {
      var isNew := dir.files.cache.None?;
      ghost var before := dir.files;
      dir.Do(OpenCache);
      PerformOne(before, OpenCache);
      if isNew && systemMessage.Some? {
        var line := [System(systemMessage.value)];
        WriteCacheLines(line);
        PerformConcat(before, [OpenCache], CacheLines(line));
      }
    }

    method WriteCurrentCache()
      modifies dir
      ensures Value() == old(Value()).Do(old(Value()).WriteCurrentOps())
      ensures dir.log == old(dir.log) + old(Value()).WriteCurrentOps()
    {
      ghost var c := Value();
      OpenCacheAndWriteSystemLine();
      WriteCacheLines(messages);
      PerformConcat(c.files, c.OpenOps(), CacheLines(messages));
    }

    // Cache first, then memory; nothing at all for an empty list.
    method Append(ms: seq<Message>)
      modifies this, dir
      ensures Value() == old(Value()).Append(ms)
      ensures dir.log == old(dir.log) + old(Value()).AppendOps(ms)
    {
      ghost var c := Value();
      if ms == [] {
        assert messages + ms == messages;
        return;
      }
      OpenCacheAndWriteSystemLine();
      WriteCacheLines(ms);
      PerformConcat(c.files, c.OpenOps(), CacheLines(ms));
      assert dir.files == PerformAll(c.files, c.AppendOps(ms));
      messages := messages + ms;
      assert Value() == c.Append(ms);
    }

    // The memory, system line first, as one history file.
    method WriteHistoryFile(now: Stamp)
      modifies dir
      ensures dir.log == old(dir.log) + ([OpenHistory(now)] + HistoryLines(now, old(Value()).Build()))
      ensures dir.files == PerformAll(old(dir.files), [OpenHistory(now)] + HistoryLines(now, old(Value()).Build()))
    {
      ghost var before := dir.files;
      dir.Do(OpenHistory(now));
      PerformOne(before, OpenHistory(now));
      var lines := Build();
      WriteHistoryLines(now, lines);
      PerformConcat(before, [OpenHistory(now)], HistoryLines(now, lines));
    }

    // Archive the memory if there is any, then remove the cache.
    method ArchiveAndClearCache(now: Stamp)
      modifies dir
      ensures Value() == old(Value()).Archive(now)
      ensures dir.log == old(dir.log) + old(Value()).ArchiveOps(now)
    {
      ghost var c := Value();
      if messages != [] {
        WriteHistoryFile(now);
      }
      ghost var head := if messages == [] then [] else [OpenHistory(now)] + HistoryLines(now, c.Build());
      ghost var before := dir.files;
      assert before == PerformAll(c.files, head);
      dir.Do(RemoveCache);
      PerformOne(before, RemoveCache);
      PerformConcat(c.files, head, [RemoveCache]);
      assert c.ArchiveOps(now) == head + [RemoveCache];
    }

    // Archive, and start again with the given messages.
    method ArchiveAndClearCacheAndResetMessages(reset: seq<Message>, now: Stamp)
      modifies this, dir
      ensures Value() == old(Value()).Reset(reset, now)
      ensures dir.log == old(dir.log) + old(Value()).ResetOps(reset, now)
    {
      ghost var c := Value();
      ArchiveAndClearCache(now);
      messages := [];
      ghost var d := c.Archive(now).(messages := []);
      assert Value() == d;
      Append(reset);
      assert c.ArchiveOps(now) + d.AppendOps(reset) == c.ResetOps(reset, now);
    }

    // Compare and switch the system message before a send.
    method ApplyPendingSystem(now: Stamp)
      modifies this, dir
      ensures Value() == old(Value()).ApplyPending(now)
      ensures dir.log == old(dir.log) + old(Value()).ApplyPendingOps(now)
    {
      ghost var c := Value();
      if pendingSystem.None? {
        return;
      }
      var pending := pendingSystem;
      pendingSystem := None;
      if systemMessage == pending {
        return;
      }
      SwitchOps(c, now);
      ArchiveAndClearCache(now);
      systemMessage := pending;
      assert Value() == c.Switched(now);
      if messages == [] {
        return;
      }
      ghost var log := dir.log;
      WriteCurrentCache();
      assert dir.log == log + c.Switched(now).WriteCurrentOps();
    }

    // Drop messages from the end until the condition holds of the last one.
    method RevertUntil<S>(condition: (S, Message) -> (S, bool), s0: S, now: Stamp) returns (dropped: seq<Message>)
      modifies this, dir
      ensures dropped == old(messages)[KeepCount(old(messages), condition, s0)..]
      ensures Value() == old(Value()).RevertTo(KeepCount(old(messages), condition, s0), now)
      ensures dir.log == old(dir.log) + old(Value()).RevertOps(KeepCount(old(messages), condition, s0), now)
    {
      dropped := PopUntil(condition, s0, now);
      if dropped != [] {
        WriteCurrentCache();
      }
    }

    // The loop of a revert: the first message dropped archives the whole list.
    method PopUntil<S>(condition: (S, Message) -> (S, bool), s0: S, now: Stamp) returns (dropped: seq<Message>)
      modifies this, dir
      ensures messages == old(messages)[..KeepCount(old(messages), condition, s0)]
      ensures dropped == old(messages)[KeepCount(old(messages), condition, s0)..]
      ensures Reverting(old(Value()), old(dir.log), Value(), dir.log, now, dropped != [])
    {
      ghost var c, log0 := Value(), dir.log;
      dropped := [];
      var s := s0;
      var backup := false;
      while messages != []
        invariant messages + dropped == c.messages && backup == (dropped != [])
        invariant KeepCount(c.messages, condition, s0) == KeepCount(messages, condition, s)
        invariant Reverting(c, log0, Value(), dir.log, now, backup)
        decreases |messages|
      {
        var (s', stop) := condition(s, messages[|messages| - 1]);
        if stop {
          break;
        }
        KeepCountNext(messages, condition, s);
        MoveLast(messages, dropped);
        s := s';
        var last := DropLast(backup, now, c, log0);
        backup := true;
        dropped := [last] + dropped;
      }
      SplitAt(messages, dropped);
    }

    // Take the last message off, archiving first if nothing was taken off before.
    method DropLast(backup: bool, now: Stamp, ghost c: Context, ghost log0: seq<FileOp>) returns (last: Message)
      requires messages != [] && Reverting(c, log0, Value(), dir.log, now, backup)
      modifies this, dir
      ensures Reverting(c, log0, Value(), dir.log, now, true)
      ensures messages == old(messages)[..|old(messages)| - 1] && last == old(messages)[|old(messages)| - 1]
    {
      if !backup {
        ArchiveAndClearCache(now);
      }
      last := messages[|messages| - 1];
      messages := messages[..|messages| - 1];
    }

    method Revert(count: nat, now: Stamp) returns (dropped: seq<Message>)
      modifies this, dir
      ensures dropped == old(messages)[|old(messages)| - Least(count, |old(messages)|)..]
      ensures Value() == Step(old(Value()), RevertMessages(count, now))
      ensures dir.log == old(dir.log) + StepOps(old(Value()), RevertMessages(count, now))
    {
      RevertCounts(messages, count);
      dropped := RevertUntil(CountDown, count, now);
    }

    // Read the cache back; a leading system line becomes the system message.
    method RecoverFromCache()
      modifies this
      ensures Value() == Step(old(Value()), Op.RecoverFromCache)
    {
      if dir.files.cache.None? {
        messages := [];
        systemMessage := None;
        return;
      }
      var lines := Lines(dir.files.cache.value, []);
      var msgs: seq<Message> := [];
      for i := 0 to |lines|
        invariant msgs == ParseAll(lines[..i])
      {
        assert lines[..i + 1][..i] == lines[..i];
        if |lines[i]| == 1 {
          msgs := msgs + [lines[i][0]];
        }
      }
      assert lines[..|lines|] == lines;
      if msgs != [] && msgs[0].System? {
        systemMessage := Some(msgs[0].content);
        msgs := msgs[1..];
      }
      messages := msgs;
    }
  }

  // The session that owns the context; before a send the pending system message is applied.
  class Session {
    const context: SessionContext

    constructor (context: SessionContext)
      ensures this.context == context
    {
      this.context := context;
    }

    method BuildContext(now: Stamp) returns (items: seq<Message>)
      modifies context, context.dir
      ensures context.Value() == Step(old(context.Value()), Op.BuildContext(now))
      ensures items == context.Value().Build()
    {
      context.ApplyPendingSystem(now);
      items := context.Build();
    }
  }
}
