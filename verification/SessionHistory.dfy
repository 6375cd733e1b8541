// What happens to messages over a whole run: reverts split the list exactly at the
// condition, and a message is forgotten exactly by two kinds of step.
module SessionHistory {
  import opened Sequences
  import opened Wrappers
  import opened SessionModel
  import opened SessionSafety

  // ----- reverting -----

  // With a condition that keeps no state, what is dropped is the longest suffix none of
  // whose messages satisfies it.
  lemma {:induction false} RevertSplitsAtCondition<S>(ms: seq<Message>, p: Message -> bool, s: S)
    ensures var k := KeepCount(ms, (s: S, m: Message) => (s, p(m)), s);
      && (forall i | k <= i < |ms| :: !p(ms[i]))
      && (k > 0 ==> p(ms[k - 1]))
    decreases |ms|
  {
    if ms != [] && !p(ms[|ms| - 1]) {
      RevertSplitsAtCondition(ms[..|ms| - 1], p, s);
    }
  }

  // The counting condition of `revert`.
  function CountDown(count: nat, m: Message): (nat, bool) {
    if count > 0 then (count - 1, false) else (0, true)
  }

  lemma {:induction false} RevertCounts(ms: seq<Message>, count: nat)
    ensures KeepCount(ms, CountDown, count) == |ms| - Least(count, |ms|)
    decreases |ms|
  {
    if ms != [] && count > 0 {
      RevertCounts(ms[..|ms| - 1], count - 1);
    }
  }

  // ----- the conversation -----

  // What each operation leaves of the messages and of the two system slots.
  ghost predicate Conversation(c: Context, op: Op, c': Context) {
    match op
    case SetSystem(content) => c'.messages == c.messages && c'.system == c.system && c'.pending == Some(content)
    case BuildContext(_) =>
      && c'.messages == c.messages && c'.pending == None
      && c'.system == (if c.pending.Some? then c.pending else c.system)
    case AppendMessages(ms) => c'.messages == c.messages + ms && c'.system == c.system && c'.pending == c.pending
    case RevertMessages(count, _) =>
      && c'.messages <= c.messages && |c'.messages| == (if count < |c.messages| then |c.messages| - count else 0)
      && c'.system == c.system && c'.pending == c.pending
    case ResetMessages(ms, _) => c'.messages == ms && c'.system == c.system && c'.pending == c.pending
    case RecoverFromCache =>
      && c'.pending == c.pending && c'.files == c.files
      && match c.files.cache
         case None => c'.messages == [] && c'.system == None
         case Some(f) =>
           if Decode(f) != [] && Decode(f)[0].System? then
             c'.system.Some? && [System(c'.system.value)] + c'.messages == Decode(f)
           else c'.messages == Decode(f) && c'.system == c.system
  }

  // For every context and operation: a system switch keeps the whole conversation, a reset
  // leaves exactly its messages, an append adds at the end, a revert cuts there.
  lemma {:induction false} StepConversation(c: Context, op: Op)
    ensures Conversation(c, op, Step(c, op))
  {
    if op.RecoverFromCache? && c.files.cache.Some? {
      var ms := Decode(c.files.cache.value);
      if ms != [] && ms[0].System? {
        assert [ms[0]] + ms[1..] == ms;
      }
    }
  }

  // Operations that have nothing to do touch no file: without a new system message, without
  // messages to append, or without messages to drop.
  lemma {:induction false} IdleStepsTouchNoFile(c: Context, op: Op)
    requires op.SetSystem? || op.RecoverFromCache?
          || (op.BuildContext? && (c.pending.None? || c.pending == c.system))
          || (op.AppendMessages? && op.messages == [])
          || (op.RevertMessages? && (op.count == 0 || c.messages == []))
    ensures Step(c, op).files == c.files && StepOps(c, op) == []
  {
  }

  // ----- archives -----

  predicate Archives(c: Context, op: Op) {
    c.messages != [] &&
    match op
    case BuildContext(_) => c.Switches()
    case RevertMessages(count, _) => count > 0
    case ResetMessages(_, _) => true
    case _ => false
  }

  function StampOf(op: Op): Stamp {
    if op.BuildContext? || op.RevertMessages? || op.ResetMessages? then op.now else ""
  }

  // A step writes at most one history file: the context before the step, under its stamp.
  lemma StepHistory(c: Context, op: Op)
    requires Mirrored(c)
    ensures Step(c, op).files.history ==
            if Archives(c, op) then c.files.history[StampOf(op) := Encode(c.Build())] else c.files.history
  {
    match op
    case SetSystem(_) =>
    case AppendMessages(ms) => AppendEffect(c, ms);
    case RecoverFromCache =>
    case BuildContext(now) =>
      if c.Switches() {
        ArchiveEffect(c, now);
        WriteCurrentIsCacheOps(c.Switched(now));
        CacheOpsKeepHistory(c.Archive(now).files, c.Switched(now).WriteCurrentOps());
      }
    case RevertMessages(count, now) =>
      var k := |c.messages| - Least(count, |c.messages|);
      if k < |c.messages| {
        ArchiveEffect(c, now);
        var d := c.Archive(now).(messages := c.messages[..k]);
        WriteCurrentIsCacheOps(d);
        CacheOpsKeepHistory(d.files, d.WriteCurrentOps());
      }
    case ResetMessages(ms, now) =>
      ArchiveEffect(c, now);
      AppendEffect(c.Archive(now).(messages := []), ms);
  }

  // An archive leaves every earlier history file as it was exactly when its second is
  // unused, or the file under it has the same content already.
  lemma ArchiveKeepsHistoryIffStampUnused(c: Context, op: Op)
    requires Mirrored(c) && Archives(c, op)
    ensures (forall t | t in c.files.history ::
               t in Step(c, op).files.history && Step(c, op).files.history[t] == c.files.history[t])
       <==> (StampOf(op) !in c.files.history || c.files.history[StampOf(op)] == Encode(c.Build()))
  {
    StepHistory(c, op);
  }

  // ----- nothing is forgotten -----

  ghost predicate Kept(c: Context, m: Message) {
    m in c.messages || exists t :: t in c.files.history && m in Decode(c.files.history[t])
  }

  function OpMessages(op: Op): seq<Message> {
    if op.AppendMessages? || op.ResetMessages? then op.messages else []
  }

  // Every message kept in c, and every one handed over with the step, is kept after it.
  ghost predicate ForgetsNothing(c: Context, op: Op) {
    forall m | Kept(c, m) || m in OpMessages(op) :: Kept(Step(c, op), m)
  }

  // One step that can lose a message: a recovery with an empty system slot takes a
  // system-role message off the head of the list, and no other copy of it is kept.
  ghost predicate LosesHead(c: Context, op: Op) {
    && op.RecoverFromCache? && c.system.None? && c.messages != [] && c.messages[0].System?
    && !Kept(c.(messages := c.messages[1..]), c.messages[0])
  }

  // The other step that can: an archive whose second was used before, when the file it
  // writes over holds a message that is nowhere else.
  ghost predicate Overwrites(c: Context, op: Op) {
    && Archives(c, op) && StampOf(op) in c.files.history
    && exists m :: m in Decode(c.files.history[StampOf(op)]) && OnlyThere(c, op, m)
  }

  ghost predicate OnlyThere(c: Context, op: Op, m: Message) {
    && m !in c.Build() && m !in OpMessages(op)
    && forall t | t in c.files.history && t != StampOf(op) :: m !in Decode(c.files.history[t])
  }

  // What a recovery leaves in memory.
  lemma {:induction false} RecoveredMessages(c: Context)
    requires Mirrored(c)
    ensures var r := c.Recover();
      && r.files == c.files
      && r.messages ==
         if c.system.None? && c.messages != [] && c.messages[0].System? then c.messages[1..] else c.messages
  {
    if c.files.cache.Some? {
      RoundTrip(c.Build());
    }
  }

  // A step forgets nothing if and only if it is neither such a recovery nor such an archive,
  // whatever the roles of the messages.
  lemma {:induction false} StepForgetsNothingIff(c: Context, op: Op)
    requires Mirrored(c)
    ensures ForgetsNothing(c, op) <==> !LosesHead(c, op) && !Overwrites(c, op)
  {
    if LosesHead(c, op) {
      RecoveredMessages(c);
      assert Kept(c, c.messages[0]) && !Kept(Step(c, op), c.messages[0]);
    } else if Overwrites(c, op) {
      var m :| m in Decode(c.files.history[StampOf(op)]) && OnlyThere(c, op, m);
      OverwrittenIsLost(c, op, m);
      assert Kept(c, m);
    } else {
      forall m | Kept(c, m) || m in OpMessages(op)
        ensures Kept(Step(c, op), m)
      {
        StepKeeps(c, op, m);
      }
    }
  }

  lemma {:induction false} OverwrittenIsLost(c: Context, op: Op, m: Message)
    requires Mirrored(c) && Archives(c, op) && OnlyThere(c, op, m)
    ensures !Kept(Step(c, op), m)
  {
    var c' := Step(c, op);
    StepHistory(c, op);
    RoundTrip(c.Build());
    assert forall x | x in c'.messages :: x in c.messages || x in OpMessages(op);
    forall t | t in c'.files.history
      ensures m !in Decode(c'.files.history[t])
    {
      assert t != StampOf(op) ==> t in c.files.history && c'.files.history[t] == c.files.history[t];
    }
  }

  lemma {:induction false} StepKeeps(c: Context, op: Op, m: Message)
    requires Mirrored(c) && !LosesHead(c, op) && !Overwrites(c, op)
    requires Kept(c, m) || m in OpMessages(op)
    ensures Kept(Step(c, op), m)
  {
    var c' := Step(c, op);
    StepHistory(c, op);
    if m in c.Build() && Archives(c, op) {
      RoundTrip(c.Build());
      assert m in Decode(c'.files.history[StampOf(op)]);
    } else if m in c.messages && op.RecoverFromCache? {
      RecoveredMessages(c);
    } else if m !in c.messages && m !in OpMessages(op) {
      HistoryKeeps(c, op, m);
    }
  }

  lemma {:induction false} HistoryKeeps(c: Context, op: Op, m: Message)
    requires Mirrored(c) && !(m in c.Build() && Archives(c, op)) && m !in OpMessages(op)
    requires Archives(c, op) && StampOf(op) in c.files.history && m in Decode(c.files.history[StampOf(op)]) ==>
               !OnlyThere(c, op, m)
    requires exists t :: t in c.files.history && m in Decode(c.files.history[t])
    ensures exists t :: t in Step(c, op).files.history && m in Decode(Step(c, op).files.history[t])
  {
    var c' := Step(c, op);
    StepHistory(c, op);
    var t :| t in c.files.history && m in Decode(c.files.history[t]);
    if Archives(c, op) && t == StampOf(op) {
      t :| t in c.files.history && t != StampOf(op) && m in Decode(c.files.history[t]);
    }
    assert c'.files.history[t] == c.files.history[t];
  }

  // ----- the system message counted as kept -----

  // In the list sent to the model, or in some history file.
  ghost predicate KeptInList(c: Context, m: Message) {
    m in c.Build() || exists t :: t in c.files.history && m in Decode(c.files.history[t])
  }

  ghost predicate ListForgetsNothing(c: Context, op: Op) {
    forall m | KeptInList(c, m) || m in OpMessages(op) :: KeptInList(Step(c, op), m)
  }

  // An archive writes over a message that is nowhere else and is not the new system message.
  ghost predicate OverwritesList(c: Context, op: Op) {
    && Archives(c, op) && StampOf(op) in c.files.history
    && exists m :: m in Decode(c.files.history[StampOf(op)]) && OnlyThere(c, op, m) && !SwitchesTo(c, op, m)
  }

  predicate SwitchesTo(c: Context, op: Op, m: Message) {
    op.BuildContext? && c.Switches() && m == System(c.pending.value)
  }

  // A system message nobody archived, because there are no messages with it, is replaced
  // by a switch or taken back by a recovery without a cache.
  ghost predicate DropsSystem(c: Context, op: Op) {
    && c.messages == [] && c.system.Some?
    && (forall t | t in c.files.history :: System(c.system.value) !in Decode(c.files.history[t]))
    && ((op.BuildContext? && c.Switches()) || (op.RecoverFromCache? && c.files.cache.None?))
  }

  // A step forgets nothing of the list, the system message included, if and only if it does
  // neither.
  lemma {:induction false} ListForgetsNothingIff(c: Context, op: Op)
    requires Mirrored(c)
    ensures ListForgetsNothing(c, op) <==> !DropsSystem(c, op) && !OverwritesList(c, op)
  {
    if DropsSystem(c, op) {
      StepHistory(c, op);
      assert KeptInList(c, System(c.system.value)) && !KeptInList(Step(c, op), System(c.system.value));
    } else if OverwritesList(c, op) {
      var m :| m in Decode(c.files.history[StampOf(op)]) && OnlyThere(c, op, m) && !SwitchesTo(c, op, m);
      OverwrittenIsLost(c, op, m);
      assert KeptInList(c, m) && m !in Step(c, op).Build();
    } else {
      forall m | KeptInList(c, m) || m in OpMessages(op)
        ensures KeptInList(Step(c, op), m)
      {
        ListKeeps(c, op, m);
      }
    }
  }

  lemma {:induction false} ListKeeps(c: Context, op: Op, m: Message)
    requires Mirrored(c) && !DropsSystem(c, op) && !OverwritesList(c, op)
    requires KeptInList(c, m) || m in OpMessages(op)
    ensures KeptInList(Step(c, op), m)
  {
    var c' := Step(c, op);
    StepHistory(c, op);
    if m in c.Build() && Archives(c, op) {
      RoundTrip(c.Build());
      assert m in Decode(c'.files.history[StampOf(op)]);
    } else if m in c.Build() && op.RecoverFromCache? {
      RecoverEffect(c);
    } else if m !in c.Build() && m !in OpMessages(op) && !SwitchesTo(c, op, m) {
      HistoryKeeps(c, op, m);
    }
  }

  // Every message of c is kept in c'.
  ghost predicate Remembers(c: Context, c': Context) { forall m | Kept(c, m) :: Kept(c', m) }

  ghost predicate AllKept(c: Context, ms: seq<Message>) { forall m | m in ms :: Kept(c, m) }

  // No archive writes over the only copy of a message, and no recovery loses the head of the list.
  ghost predicate Careful(c: Context, op: Op) { !Overwrites(c, op) && !LosesHead(c, op) }

  ghost predicate CarefulRun(c: Context, ops: seq<Op>)
    decreases |ops|
  {
    ops != [] ==> CarefulRun(c, ops[..|ops| - 1]) && Careful(Run(c, ops[..|ops| - 1]), ops[|ops| - 1])
  }

  // All messages handed over during a run.
  function Handed(ops: seq<Op>): seq<Message> {
    if ops == [] then [] else Handed(ops[..|ops| - 1]) + OpMessages(ops[|ops| - 1])
  }

  // Every message given to a session, whatever its role, is in memory or in a history file
  // for ever after.
  lemma {:induction false} NothingIsForgotten(c: Context, ops: seq<Op>)
    requires Mirrored(c) && CarefulRun(c, ops)
    ensures Mirrored(Run(c, ops))
    ensures Remembers(c, Run(c, ops)) && AllKept(Run(c, ops), Handed(ops))
    decreases |ops|
  {
    if ops != [] {
      var r, last := Run(c, ops[..|ops| - 1]), ops[|ops| - 1];
      NothingIsForgotten(c, ops[..|ops| - 1]);
      StepKeepsMirror(r, last);
      StepForgetsNothingIff(r, last);
      assert Remembers(r, Step(r, last)) && AllKept(Step(r, last), OpMessages(last));
    }
  }

  // The proviso is needed: two resets in one second lose the first one's messages.
  lemma SameSecondForgets(a: Message, b: Message, t: Stamp)
    requires a != b
    ensures var c := Context([a], None, None, Files(Some(Encode([a])), map[]));
            Mirrored(c) && !Kept(Step(Step(c, ResetMessages([b], t)), ResetMessages([], t)), a)
  {
    var c := Context([a], None, None, Files(Some(Encode([a])), map[]));
    assert c.Build() == [a];
    var d := Step(c, ResetMessages([b], t));
    StepKeepsMirror(c, ResetMessages([b], t));
    StepHistory(c, ResetMessages([b], t));
    assert d.messages == [b] && d.Build() == [b];
    var e := Step(d, ResetMessages([], t));
    StepHistory(d, ResetMessages([], t));
    RoundTrip([b]);
    assert e.messages == [];
    assert e.files.history == map[t := Encode([b])];
  }

  // So is the other half: a leading system-role message that was appended moves to the
  // system slot on recovery, and a system switch without messages does not archive it.
  lemma AppendedSystemMessageIsForgotten(x: string, y: string, t: Stamp)
    requires x != y
    ensures var c := Context([System(x)], None, None, Files(Some(Encode([System(x)])), map[]));
      && Mirrored(c)
      && var d := Step(Step(Step(c, RecoverFromCache), SetSystem(y)), BuildContext(t));
         !Kept(d, System(x)) && System(x) !in d.Build()
  {
    var c := Context([System(x)], None, None, Files(Some(Encode([System(x)])), map[]));
    assert c.Build() == [System(x)];
    RoundTrip([System(x)]);
    var r := Step(c, RecoverFromCache);
    assert r.messages == [] && r.system == Some(x);
    StepKeepsMirror(c, RecoverFromCache);
    var s := Step(r, SetSystem(y));
    StepHistory(s, BuildContext(t));
  }
}
