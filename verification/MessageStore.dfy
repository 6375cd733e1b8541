// The message store of a group: the three cursor queries, loop by loop, and the writer
// that stamps and appends a batch.
module MessageStore {
  import opened MessageLog
  import opened Sequences

  function Reversed(groups: seq<Group>): seq<Group> {
    if groups == [] then [] else [groups[|groups| - 1]] + Reversed(groups[..|groups| - 1])
  }

  lemma ReversedPush(groups: seq<Group>, g: Group)
    ensures Reversed(groups + [g]) == [g] + Reversed(groups)
    ensures FlatGroups(Reversed(groups + [g])) == Tagged(g.date, g.messages) + FlatGroups(Reversed(groups))
  {
    assert (groups + [g])[..|groups|] == groups;
    assert ([g] + Reversed(groups))[1..] == Reversed(groups);
  }

  lemma FlatPush(groups: seq<Group>, g: Group)
    ensures FlatGroups(groups + [g]) == FlatGroups(groups) + Tagged(g.date, g.messages)
  {
    FlatGroupsConcat(groups, [g]);
    assert [g][1..] == [];
  }

  ghost predicate NoneEmpty(groups: seq<Group>) { forall g | g in groups :: g.messages != [] }

  lemma ReversedNoneEmpty(groups: seq<Group>)
    requires NoneEmpty(groups)
    ensures NoneEmpty(Reversed(groups))
  {
    if groups != [] {
      ReversedNoneEmpty(groups[..|groups| - 1]);
    }
  }

  // Groups in the order they were found, newest date first, that make up `entries`.
  ghost predicate Collected(groups: seq<Group>, entries: seq<Entry>) {
    NoneEmpty(groups) && FlatGroups(Reversed(groups)) == entries
  }

  lemma CollectedPush(groups: seq<Group>, entries: seq<Entry>, g: Group)
    requires Collected(groups, entries) && g.messages != []
    ensures Collected(groups + [g], Tagged(g.date, g.messages) + entries)
  {
    ReversedPush(groups, g);
  }

  // Tagging a query's answer and querying the tagged file are the same.
  lemma {:induction false} QueryIsOfEntries(d: Date, f: seq<Message>, line: nat, n: nat)
    ensures Tagged(d, QueryLast(f, n)) == LastN(Entries(d, f), n)
    ensures Tagged(d, QueryFirst(f, n)) == FirstN(Entries(d, f), n)
    ensures Tagged(d, QueryBefore(f, line, n)) == LastN(Entries(d, f)[..Least(line, |f|)], n)
    ensures Tagged(d, QueryAfter(f, line + 1, n)) == FirstN(Entries(d, f)[Least(line, |f|)..], n)
  {
    var lines, cut := Numbered(f), Least(line, |f|);
    TaggedSlices(d, lines, 0, |lines|, n);
    TaggedSlices(d, lines, 0, cut, n);
    TaggedSlices(d, lines, cut, |lines|, n);
    assert lines[0..|lines|] == lines && Entries(d, f)[0..|lines|] == Entries(d, f);
  }

  lemma {:induction false} TaggedSlices(d: Date, lines: seq<LineMessage>, i: nat, j: nat, n: nat)
    requires i <= j <= |lines|
    ensures Tagged(d, LastN(lines[i..j], n)) == LastN(Tagged(d, lines)[i..j], n)
    ensures Tagged(d, FirstN(lines[i..j], n)) == FirstN(Tagged(d, lines)[i..j], n)
  {
  }

  // Going back one more date adds that date's last lines in front.
  lemma {:induction false} EarlierDate(dates: seq<Date>, files: map<Date, seq<Message>>, k: nat, own: seq<Entry>,
                                       n: nat)
    requires 0 < k <= |dates|
    ensures var taken := LastN(FlatDates(dates[k..], files) + own, n);
            var msgs := QueryLast(File(files, dates[k - 1]), n - |taken|);
      && LastN(FlatDates(dates[k - 1..], files) + own, n) == Tagged(dates[k - 1], msgs) + taken
  {
    var d := dates[k - 1];
    var f, rest := File(files, d), FlatDates(dates[k..], files);
    assert dates[k - 1..][1..] == dates[k..];
    ConcatAssociates(Entries(d, f), rest, own);
    LastNConcat(Entries(d, f), rest + own, n);
    QueryIsOfEntries(d, f, 0, n - |LastN(rest + own, n)|);
  }

  lemma {:induction false} CollectEarlier(results: seq<Group>, dates: seq<Date>, files: map<Date, seq<Message>>,
                                          k: nat, own: seq<Entry>, n: nat)
    requires 0 < k <= |dates| && Collected(results, LastN(FlatDates(dates[k..], files) + own, n))
    ensures var taken := LastN(FlatDates(dates[k..], files) + own, n);
            var more := LastN(FlatDates(dates[k - 1..], files) + own, n);
            var msgs := QueryLast(File(files, dates[k - 1]), n - |taken|);
      && |more| == |taken| + |msgs|
      && Collected(if msgs == [] then results else results + [Group(dates[k - 1], msgs)], more)
  {
    var taken := LastN(FlatDates(dates[k..], files) + own, n);
    var msgs := QueryLast(File(files, dates[k - 1]), n - |taken|);
    EarlierDate(dates, files, k, own, n);
    if msgs == [] {
      assert Tagged(dates[k - 1], msgs) + taken == taken;
    } else {
      CollectedPush(results, taken, Group(dates[k - 1], msgs));
    }
  }

  // Going on one more date adds that date's first lines behind.
  lemma {:induction false} LaterDate(dates: seq<Date>, files: map<Date, seq<Message>>, j: nat, own: seq<Entry>, n: nat)
    requires j < |dates|
    ensures var taken := FirstN(own + FlatDates(dates[..j], files), n);
            var msgs := QueryFirst(File(files, dates[j]), n - |taken|);
      && FirstN(own + FlatDates(dates[..j + 1], files), n) == taken + Tagged(dates[j], msgs)
  {
    var d := dates[j];
    var f, head := File(files, d), FlatDates(dates[..j], files);
    assert dates[..j + 1] == dates[..j] + [d] && [d][1..] == [];
    FlatDatesConcat(dates[..j], [d], files);
    assert own + FlatDates(dates[..j + 1], files) == (own + head) + Entries(d, f);
    FirstNConcat(own + head, Entries(d, f), n);
    QueryIsOfEntries(d, f, 0, n - |FirstN(own + head, n)|);
  }

  // The first n of the entries up to date j of those walked on.
  ghost predicate TakenUpTo(taken: seq<Entry>, own: seq<Entry>, dates: seq<Date>, files: map<Date, seq<Message>>,
                            j: nat, n: nat)
    requires j <= |dates|
  {
    taken == FirstN(own + FlatDates(dates[..j], files), n)
  }

  lemma {:induction false} TakeLater(taken: seq<Entry>, own: seq<Entry>, dates: seq<Date>,
                                     files: map<Date, seq<Message>>, j: nat, n: nat)
    requires j < |dates| && TakenUpTo(taken, own, dates, files, j, n)
    ensures |taken| <= n
    ensures var msgs := QueryFirst(File(files, dates[j]), n - |taken|);
            TakenUpTo(taken + Tagged(dates[j], msgs), own, dates, files, j + 1, n)
  {
    LaterDate(dates, files, j, own, n);
  }

  lemma {:induction false} CollectMore(results: seq<Group>, taken: seq<Entry>, d: Date, msgs: seq<LineMessage>)
    requires NoneEmpty(results) && FlatGroups(results) == taken
    ensures var results' := if msgs == [] then results else results + [Group(d, msgs)];
            NoneEmpty(results') && FlatGroups(results') == taken + Tagged(d, msgs)
  {
    if msgs == [] {
      assert taken + Tagged(d, msgs) == taken;
    } else {
      FlatPush(results, Group(d, msgs));
    }
  }

  class Store {
    var dates: seq<Date>
    var files: map<Date, seq<Message>>

    ghost function Value(): Log
      reads this
    {
      Log(dates, files)
    }

    constructor ()
      ensures Value() == Log([], map[])
    {
      dates := [];
      files := map[];
    }

    // Stamp a batch and append it to the file of its key date, one line per record.
    method Write(date: Date, ids: seq<string>, now: Time)
      modifies this
      ensures Value() == Written(old(Value()), date, ids, now)
    {
      var time := now;
      if date != now.date {
        time := Time(date, END_OF_DAY);
      }
      var file := File(files, date);
      ghost var start := file;
      for i := 0 to |ids|
        invariant file == start + Stamped(ids[..i], time)
        invariant files == old(files) && dates == old(dates)
      {
        assert ids[..i + 1] == ids[..i] + [ids[i]];
        StampedPush(ids[..i], ids[i], time);
        file := file + [Message(ids[i], time)];
      }
      assert ids[..|ids|] == ids;
      assert file == File(files, date) + Stamped(ids, StampFor(date, now));
      files := files[date := file];
      dates := InsertDate(dates, date);
    }

    // Walk back over the known dates, one by one, until n messages are collected.
    static method CollectBack(known: seq<Date>, files: map<Date, seq<Message>>, found: seq<Group>, n: nat,
                              ghost own: seq<Entry>)
      returns (results: seq<Group>)
      requires Collected(found, LastN(own, n))
      ensures Collected(results, LastN(FlatDates(known, files) + own, n))
    {
      results := found;
      var k, remaining := |known|, n - Count(found);
      CountIsLength(found);
      assert FlatDates([], files) + own == own;
      while k > 0 && remaining > 0
        invariant 0 <= k <= |known|
        invariant Collected(results, LastN(FlatDates(known[k..], files) + own, n))
        invariant remaining == n - |LastN(FlatDates(known[k..], files) + own, n)|
      {
        var msgs := QueryLast(File(files, known[k - 1]), remaining);
        CollectEarlier(results, known, files, k, own, n);
        if msgs != [] {
          results := results + [Group(known[k - 1], msgs)];
          remaining := remaining - |msgs|;
        }
        k := k - 1;
      }
      TakenAll(known, files, k, own, n);
    }

    // Newest date first, until n messages are collected.
    method GetRecent(n: nat) returns (groups: seq<Group>)
      requires ValidLog(Value())
      ensures FlatGroups(groups) == LastN(Flat(Value()), n)
      ensures NoneEmpty(groups)
    {
      assert FlatDates(dates, files) + [] == FlatDates(dates, files);
      var results := CollectBack(dates, files, [], n, []);
      ReversedNoneEmpty(results);
      groups := Reversed(results);
    }

    // The rest of the cursor's own date first, then earlier dates one by one.
    method GetBefore(date: Date, line: nat, n: nat) returns (groups: seq<Group>)
      requires ValidLog(Value())
      ensures FlatGroups(groups) == LastN(Before(Value(), date, line), n)
      ensures NoneEmpty(groups)
    {
      var results: seq<Group> := [];
      var queryLine := if line > 0 then line - 1 else 0;
      var file := File(files, date);
      ghost var own := Entries(date, file)[..Least(queryLine, |file|)];
      if queryLine > 0 {
        var msgs := QueryBefore(file, queryLine, n);
        QueryIsOfEntries(date, file, queryLine, n);
        if msgs != [] {
          CollectedPush(results, [], Group(date, msgs));
          results := results + [Group(date, msgs)];
        }
      }
      assert LastN(own, n) + [] == LastN(own, n);
      results := CollectBack(dates[..Below(dates, date)], files, results, n, own);
      ReversedNoneEmpty(results);
      groups := Reversed(results);
    }

    // Walk on over the given dates until n messages are collected.
    method CollectOn(later: seq<Date>, found: seq<Group>, n: nat, ghost own: seq<Entry>) returns (groups: seq<Group>)
      requires NoneEmpty(found) && FlatGroups(found) == FirstN(own, n)
      ensures FlatGroups(groups) == FirstN(own + FlatDates(later, files), n)
      ensures NoneEmpty(groups)
    {
      groups := found;
      CountForward(found);
      var remaining := n - Count(found);
      var j := 0;
      ghost var taken := FirstN(own, n);
      assert later[..0] == [] && own + FlatDates([], files) == own;
      while j < |later| && remaining > 0
        invariant j <= |later|
        invariant NoneEmpty(groups) && FlatGroups(groups) == taken
        invariant TakenUpTo(taken, own, later, files, j, n)
        invariant remaining == n - |taken|
      {
        var date := later[j];
        var msgs := QueryFirst(File(files, date), remaining);
        TakeLater(taken, own, later, files, j, n);
        CollectMore(groups, taken, date, msgs);
        taken := taken + Tagged(date, msgs);
        if msgs != [] {
          groups := groups + [Group(date, msgs)];
          remaining := remaining - |msgs|;
        }
        j := j + 1;
      }
      TakenFirst(later, files, j, own, n);
    }

    // The rest of the cursor's own date first, then later dates one by one.
    method GetAfter(date: Date, line: nat, n: nat) returns (groups: seq<Group>)
      requires ValidLog(Value())
      ensures FlatGroups(groups) == FirstN(After(Value(), date, line), n)
      ensures NoneEmpty(groups)
    {
      groups := [];
      var file := File(files, date);
      ghost var own := Entries(date, file)[Least(line, |file|)..];
      var msgs := QueryAfter(file, line + 1, n);
      QueryIsOfEntries(date, file, line, n);
      if msgs != [] {
        FlatPush(groups, Group(date, msgs));
        groups := groups + [Group(date, msgs)];
      }
      groups := CollectOn(dates[Below(dates, date + 1)..], groups, n, own);
    }
  }

  function Count(groups: seq<Group>): nat {
    if groups == [] then 0 else Count(groups[..|groups| - 1]) + |groups[|groups| - 1].messages|
  }

  lemma CountIsLength(groups: seq<Group>)
    ensures Count(groups) == |FlatGroups(Reversed(groups))|
  {
    if groups != [] {
      var init := groups[..|groups| - 1];
      CountIsLength(init);
      ReversedPush(init, groups[|groups| - 1]);
      assert init + [groups[|groups| - 1]] == groups;
    }
  }

  lemma CountForward(groups: seq<Group>)
    ensures Count(groups) == |FlatGroups(groups)|
  {
    if groups != [] {
      var init := groups[..|groups| - 1];
      CountForward(init);
      FlatPush(init, groups[|groups| - 1]);
      assert init + [groups[|groups| - 1]] == groups;
    }
  }

  // Once n entries are taken (or no date is left) the dates not reached add nothing.
  lemma TakenAll(dates: seq<Date>, files: map<Date, seq<Message>>, k: nat, own: seq<Entry>, n: nat)
    requires k <= |dates|
    requires k == 0 || |LastN(FlatDates(dates[k..], files) + own, n)| == n
    ensures LastN(FlatDates(dates, files) + own, n) == LastN(FlatDates(dates[k..], files) + own, n)
  {
    FlatDatesAt(dates, files, k);
    var low, high := FlatDates(dates[..k], files), FlatDates(dates[k..], files);
    assert k == 0 ==> low == [];
    LastIsEnough(low, high, own, n);
  }

  lemma LastIsEnough(low: seq<Entry>, high: seq<Entry>, own: seq<Entry>, n: nat)
    requires low == [] || |LastN(high + own, n)| == n
    ensures LastN(low + high + own, n) == LastN(high + own, n)
  {
    assert low + high + own == low + (high + own);
    LastNConcat(low, high + own, n);
  }

  lemma TakenFirst(dates: seq<Date>, files: map<Date, seq<Message>>, j: nat, own: seq<Entry>, n: nat)
    requires j <= |dates|
    requires j == |dates| || |FirstN(own + FlatDates(dates[..j], files), n)| == n
    ensures FirstN(own + FlatDates(dates, files), n) == FirstN(own + FlatDates(dates[..j], files), n)
  {
    FlatDatesAt(dates, files, j);
    var low, high := FlatDates(dates[..j], files), FlatDates(dates[j..], files);
    assert j == |dates| ==> high == [];
    FirstIsEnough(own, low, high, n);
  }

  lemma FirstIsEnough(own: seq<Entry>, low: seq<Entry>, high: seq<Entry>, n: nat)
    requires high == [] || |FirstN(own + low, n)| == n
    ensures FirstN(own + (low + high), n) == FirstN(own + low, n)
  {
    assert own + (low + high) == own + low + high;
    FirstNConcat(own + low, high, n);
  }
}
