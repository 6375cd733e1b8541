// Reading the recent memory back: two overlapping queries merged through an ordered map.
module MemoryRecovery {
  import opened Wrappers
  import opened MemoryPacking
  import opened Sequences

  type Time = nat

  datatype Record = Record(time: Time, sn: nat, userName: string, content: Content, isSelf: nat)

  // The ordered map, as its entries in key order.
  datatype Slot = Slot(time: Time, sn: nat, value: MessageContent)

  predicate KeyBelow(t1: Time, n1: nat, t2: Time, n2: nat) { t1 < t2 || (t1 == t2 && n1 < n2) }

  predicate SlotBelow(a: Slot, b: Slot) { KeyBelow(a.time, a.sn, b.time, b.sn) }

  ghost predicate Ascending(entries: seq<Slot>) {
    forall i, j | 0 <= i < j < |entries| :: SlotBelow(entries[i], entries[j])
  }

  // The store's log: strictly ordered by time and serial number.
  ghost predicate ValidLog(log: seq<Record>) {
    forall i, j | 0 <= i < j < |log| :: KeyBelow(log[i].time, log[i].sn, log[j].time, log[j].sn)
  }

  function SlotOf(r: Record): Slot { Slot(r.time, r.sn, Extracted(r.userName, r.content, r.isSelf)) }

  // Insert under a key that is not there yet; an existing entry stays.
  function InsertIfAbsent(entries: seq<Slot>, s: Slot): seq<Slot> {
    if entries == [] || SlotBelow(s, entries[0]) then [s] + entries
    else if SlotBelow(entries[0], s) then [entries[0]] + InsertIfAbsent(entries[1..], s)
    else entries
  }

  predicate HasKey(entries: seq<Slot>, s: Slot) {
    exists i :: 0 <= i < |entries| && entries[i].time == s.time && entries[i].sn == s.sn
  }

  function Values(entries: seq<Slot>): (r: seq<MessageContent>)
    ensures |r| == |entries| && forall i | 0 <= i < |entries| :: r[i] == entries[i].value
  {
    seq(|entries|, i requires 0 <= i < |entries| => entries[i].value)
  }

  function SlotsOf(rs: seq<Record>): (r: seq<Slot>)
    ensures |r| == |rs| && forall i | 0 <= i < |rs| :: r[i] == SlotOf(rs[i])
  {
    seq(|rs|, i requires 0 <= i < |rs| => SlotOf(rs[i]))
  }

  // The first index with a time of at least t.
  function FirstAt(log: seq<Record>, t: Time): (k: nat)
    ensures k <= |log|
    ensures forall i | 0 <= i < k :: log[i].time < t
    ensures k < |log| ==> log[k].time >= t
  {
    if log == [] || log[0].time >= t then 0 else 1 + FirstAt(log[1..], t)
  }

  // The records with lo <= time <= hi.
  function Between(log: seq<Record>, lo: Time, hi: Time): seq<Record> {
    if log == [] then []
    else (if lo <= log[0].time <= hi then [log[0]] else []) + Between(log[1..], lo, hi)
  }

  function Flatten(groups: seq<seq<Record>>): seq<Record> {
    if groups == [] then [] else Flatten(groups[..|groups| - 1]) + groups[|groups| - 1]
  }

  // ----- what is to be recovered -----

  // Everything from the window start or the n-th newest record's time on, whichever is
  // earlier; the whole log if it has fewer than n records.
  function RecoveredFrom(log: seq<Record>, start: Time, n: nat): (k: nat)
    requires n >= 1
    ensures k <= |log|
  {
    if |log| < n then 0 else FirstAt(log, Least(start, log[|log| - n].time))
  }

  function Recovered(log: seq<Record>, start: Time, n: nat): seq<Record>
    requires n >= 1
  {
    log[RecoveredFrom(log, start, n)..]
  }

  // It is a suffix with the n newest records, it holds exactly the records that are recent
  // enough, and no group of one second is split.
  lemma RecoveredIsRecent(log: seq<Record>, start: Time, n: nat)
    requires ValidLog(log) && n >= 1
    ensures var k := RecoveredFrom(log, start, n);
      && (|log| >= n ==> k <= |log| - n)
      && (forall i | 0 <= i < |log| :: i >= k <==> |log| < n || log[i].time >= Least(start, log[|log| - n].time))
      && (forall i, j | 0 <= i < |log| && 0 <= j < |log| && log[i].time == log[j].time :: i >= k <==> j >= k)
  {
    if |log| >= n {
      AtLeastIsSuffix(log, Least(start, log[|log| - n].time));
    }
  }

  // What is handed on is, record by record and in order, the speaker's name, the texts and
  // whether the speaker is self.
  lemma {:induction false} RecoveredContents(log: seq<Record>, start: Time, n: nat, i: nat)
    requires n >= 1 && i < |log| - RecoveredFrom(log, start, n)
    ensures var contents, r := Values(SlotsOf(Recovered(log, start, n))), log[RecoveredFrom(log, start, n) + i];
      && |contents| == |log| - RecoveredFrom(log, start, n)
      && contents[i].userName == r.userName && contents[i].content == TextParts(r.content)
      && (contents[i].isSelf <==> r.isSelf > 0)
  {
  }

  lemma AtLeastIsSuffix(log: seq<Record>, t: Time)
    requires ValidLog(log)
    ensures forall i | 0 <= i < |log| :: i >= FirstAt(log, t) <==> log[i].time >= t
  {
    var k := FirstAt(log, t);
    forall i | k < i < |log|
      ensures log[i].time >= t
    {
      assert KeyBelow(log[k].time, log[k].sn, log[i].time, log[i].sn);
    }
  }

  // ----- the ordered map -----

  lemma {:induction false} InsertKeeps(entries: seq<Slot>, s: Slot)
    requires Ascending(entries)
    ensures Ascending(InsertIfAbsent(entries, s))
    ensures forall x :: x in InsertIfAbsent(entries, s) <==> x in entries || (x == s && !HasKey(entries, s))
  {
    if entries == [] || SlotBelow(s, entries[0]) {
      assert forall i | 0 <= i < |entries| :: entries[i] == entries[0] || SlotBelow(entries[0], entries[i]);
    } else if SlotBelow(entries[0], s) {
      var rest := entries[1..];
      InsertKeeps(rest, s);
      var r := [entries[0]] + InsertIfAbsent(rest, s);
      assert HasKey(entries, s) <==> HasKey(rest, s) by {
        if HasKey(entries, s) {
          var i :| 0 <= i < |entries| && entries[i].time == s.time && entries[i].sn == s.sn;
          assert rest[i - 1] == entries[i];
        }
        if HasKey(rest, s) {
          var i :| 0 <= i < |rest| && rest[i].time == s.time && rest[i].sn == s.sn;
          assert entries[i + 1] == rest[i];
        }
      }
      forall x | x in InsertIfAbsent(rest, s)
        ensures SlotBelow(entries[0], x)
      {
      }
      assert forall i | 0 < i < |r| :: r[i] in InsertIfAbsent(rest, s);
    } else {
      assert entries[0].time == s.time && entries[0].sn == s.sn;
    }
  }

  // An ascending map is determined by its entries.
  lemma {:induction false} AscendingIsUnique(a: seq<Slot>, b: seq<Slot>)
    requires Ascending(a) && Ascending(b) && forall x :: x in a <==> x in b
    ensures a == b
  {
    if a == [] {
      if b != [] {
        HasMember(b);
      }
    } else {
      assert a[0] in b;
      assert b[0] in a;
      assert a[0] == b[0];
      forall x
        ensures x in a[1..] <==> x in b[1..]
      {
        assert x in a[1..] ==> x in a && x != a[0];
        assert x in b[1..] ==> x in b && x != b[0];
      }
      AscendingIsUnique(a[1..], b[1..]);
      assert a == [a[0]] + a[1..] && b == [b[0]] + b[1..];
    }
  }

  // The map after reading records of the log: exactly the slots of what was read.
  ghost predicate Holds(entries: seq<Slot>, log: seq<Record>, read: seq<Record>) {
    && Ascending(entries)
    && (forall r | r in read :: r in log)
    && (forall x :: x in entries <==> exists r :: r in read && x == SlotOf(r))
  }

  lemma InsertHolds(entries: seq<Slot>, log: seq<Record>, read: seq<Record>, r: Record)
    requires ValidLog(log) && Holds(entries, log, read) && r in log
    ensures Holds(InsertIfAbsent(entries, SlotOf(r)), log, read + [r])
  {
    InsertKeeps(entries, SlotOf(r));
    if HasKey(entries, SlotOf(r)) {
      var i :| 0 <= i < |entries| && entries[i].time == r.time && entries[i].sn == r.sn;
      assert entries[i] in entries;
      var q :| q in read && entries[i] == SlotOf(q);
      KeyIsUnique(log, q, r);
    }
    assert forall q :: q in read + [r] <==> q in read || q == r;
  }

  lemma KeyIsUnique(log: seq<Record>, a: Record, b: Record)
    requires ValidLog(log) && a in log && b in log && a.time == b.time && a.sn == b.sn
    ensures a == b
  {
    var i, j :| 0 <= i < |log| && log[i] == a && 0 <= j < |log| && log[j] == b;
  }

  // Reading exactly a suffix of the log leaves exactly its slots, in its order.
  lemma HeldSuffix(entries: seq<Slot>, log: seq<Record>, read: seq<Record>, k: nat)
    requires ValidLog(log) && Holds(entries, log, read) && k <= |log|
    requires forall r :: r in read <==> r in log[k..]
    ensures entries == SlotsOf(log[k..])
  {
    var tail := log[k..];
    var slots := SlotsOf(tail);
    forall x
      ensures x in slots <==> x in entries
    {
      if x in slots {
        var i :| 0 <= i < |slots| && slots[i] == x;
        assert tail[i] in read;
      }
      if x in entries {
        var r :| r in read && x == SlotOf(r);
        var i :| 0 <= i < |tail| && tail[i] == r;
        assert slots[i] == x;
      }
    }
    AscendingIsUnique(entries, slots);
  }

  lemma {:induction false} BetweenHas(log: seq<Record>, lo: Time, hi: Time)
    ensures forall r :: r in Between(log, lo, hi) <==> r in log && lo <= r.time <= hi
  {
    if log != [] {
      BetweenHas(log[1..], lo, hi);
      assert forall r :: r in log <==> r == log[0] || r in log[1..];
    }
  }

  // ----- the two queries -----

  // Merge a query's groups into the map, record by record.
  method ParseChannelGroups(groups: seq<seq<Record>>, entries: seq<Slot>, ghost log: seq<Record>,
                            ghost read: seq<Record>)
    returns (r: seq<Slot>)
    requires ValidLog(log) && Holds(entries, log, read) && forall q | q in Flatten(groups) :: q in log
    ensures Holds(r, log, read + Flatten(groups))
  {
    r := entries;
    assert read + [] == read;
    for g := 0 to |groups|
      invariant Holds(r, log, read + Flatten(groups[..g]))
    {
      ghost var before := read + Flatten(groups[..g]);
      assert groups[..g + 1][..g] == groups[..g];
      FlattenHas(groups, g);
      assert before + [] == before;
      for i := 0 to |groups[g]|
        invariant Holds(r, log, before + groups[g][..i])
      {
        var rec := groups[g][i];
        assert groups[g][..i + 1] == groups[g][..i] + [rec];
        InsertHolds(r, log, before + groups[g][..i], rec);
        assert before + groups[g][..i] + [rec] == before + groups[g][..i + 1];
        if !HasKey(r, SlotOf(rec)) {
          r := InsertIfAbsent(r, SlotOf(rec));
        } else {
          InsertPresent(r, SlotOf(rec));
        }
      }
      assert groups[g][..|groups[g]|] == groups[g];
      assert read + Flatten(groups[..g]) + groups[g] == read + Flatten(groups[..g + 1]);
    }
    assert groups[..|groups|] == groups;
  }

  lemma {:induction false} InsertPresent(entries: seq<Slot>, s: Slot)
    requires Ascending(entries) && HasKey(entries, s)
    ensures InsertIfAbsent(entries, s) == entries
  {
    var i :| 0 <= i < |entries| && entries[i].time == s.time && entries[i].sn == s.sn;
    if i > 0 {
      assert entries[1..][i - 1] == entries[i];
      assert SlotBelow(entries[0], entries[i]);
      InsertPresent(entries[1..], s);
    }
  }

  lemma {:induction false} FlattenHas(groups: seq<seq<Record>>, g: nat)
    requires g < |groups|
    ensures forall i | 0 <= i < |groups[g]| :: groups[g][i] in Flatten(groups)
    decreases |groups|
  {
    if g < |groups| - 1 {
      FlattenHas(groups[..|groups| - 1], g);
    }
  }

  // `split` is how the store cuts an answer into per-file groups, in any order; `start` is
  // the start of the time window, absent when it cannot be computed.
  method ReadRecentForContext(log: seq<Record>, split: seq<Record> -> seq<seq<Record>>, start: Option<Time>, count: nat)
    returns (r: Option<seq<MessageContent>>)
    requires ValidLog(log) && forall s, q :: q in Flatten(split(s)) <==> q in s
    ensures r.None? <==> start.None?
    ensures start.Some? && count == 0 ==> r == Some([])
    ensures start.Some? && count >= 1 ==> r == Some(Values(SlotsOf(Recovered(log, start.value, count))))
  {
    if start.None? {
      return None;
    }
    ghost var newest := LastN(log, count);
    ghost var read := Flatten(split(newest));
    assert newest == log[|log| - |newest|..] && log[0..] == log;
    assert Holds([], log, []);
    var entries := ParseChannelGroups(split(LastN(log, count)), [], log, []);
    assert [] + read == read;
    HeldSuffix(entries, log, read, |log| - |newest|);
    if entries == [] {
      return Some([]);
    }
    var ln := entries[0].time;
    if |entries| < count {
      return Some(Values(entries));
    }
    var m := if start.value < ln then start.value else ln;
    ghost var range := Between(log, m, ln);
    BetweenHas(log, m, ln);
    entries := ParseChannelGroups(split(Between(log, m, ln)), entries, log, read);
    UnionIsSuffix(log, start.value, count);
    assert forall q :: q in read + Flatten(split(range)) <==> q in newest + range;
    HeldSuffix(entries, log, read + Flatten(split(range)), FirstAt(log, m));
    r := Some(Values(entries));
  }

  // The n newest records and the records of [m, ln] together are everything from m on.
  lemma UnionIsSuffix(log: seq<Record>, start: Time, n: nat)
    requires ValidLog(log) && 1 <= n <= |log|
    ensures var ln := log[|log| - n].time;
            var m := Least(start, ln);
            forall r :: r in LastN(log, n) + Between(log, m, ln) <==> r in log[FirstAt(log, m)..]
  {
    var ln := log[|log| - n].time;
    var m := Least(start, ln);
    BetweenHas(log, m, ln);
    forall r
      ensures r in LastN(log, n) + Between(log, m, ln) <==> r in log[FirstAt(log, m)..]
    {
      InSuffix(log, m, r);
      NewestOrEarlier(log, n, r);
    }
  }

  lemma InSuffix(log: seq<Record>, t: Time, r: Record)
    requires ValidLog(log)
    ensures r in log[FirstAt(log, t)..] <==> r in log && r.time >= t
  {
    AtLeastIsSuffix(log, t);
    var k := FirstAt(log, t);
    if r in log && r.time >= t {
      var i :| 0 <= i < |log| && log[i] == r;
      assert log[k..][i - k] == r;
    }
  }

  lemma NewestOrEarlier(log: seq<Record>, n: nat, r: Record)
    requires ValidLog(log) && 1 <= n <= |log|
    ensures r in LastN(log, n) ==> r in log && r.time >= log[|log| - n].time
    ensures r in log ==> r in LastN(log, n) || r.time <= log[|log| - n].time
  {
    var k := |log| - n;
    if r in LastN(log, n) {
      var i :| 0 <= i < n && LastN(log, n)[i] == r;
      assert log[k + i] == r;
    }
    if r in log {
      var i :| 0 <= i < |log| && log[i] == r;
      assert i >= k ==> LastN(log, n)[i - k] == r;
    }
  }
}
