// A group's messages: one append-only file per date, read through per-file index queries,
// and the one log those files make up together.
module MessageLog {
  import opened Sequences

  type Date = nat

  // A moment is a date and a second of that day.
  datatype Time = Time(date: Date, second: nat)

  datatype Message = Message(id: string, time: Time)

  // Lines are counted from 1.
  datatype LineMessage = LineMessage(line: nat, message: Message)

  datatype Group = Group(date: Date, messages: seq<LineMessage>)

  datatype Entry = Entry(date: Date, line: nat, message: Message)

  // `dates` is the ordered set of dates the store knows of.
  datatype Log = Log(dates: seq<Date>, files: map<Date, seq<Message>>)

  ghost predicate Increasing(dates: seq<Date>) {
    forall i, j | 0 <= i < j < |dates| :: dates[i] < dates[j]
  }

  ghost predicate ValidLog(log: Log) {
    Increasing(log.dates) && forall d | d in log.files :: d in log.dates
  }

  function File(files: map<Date, seq<Message>>, d: Date): seq<Message> {
    if d in files then files[d] else []
  }

  // ----- the index queries of one file -----

  function Numbered(f: seq<Message>): (r: seq<LineMessage>)
    ensures |r| == |f| && forall i | 0 <= i < |f| :: r[i] == LineMessage(i + 1, f[i])
  {
    seq(|f|, i requires 0 <= i < |f| => LineMessage(i + 1, f[i]))
  }

  function QueryLast(f: seq<Message>, n: nat): seq<LineMessage> { LastN(Numbered(f), n) }

  function QueryFirst(f: seq<Message>, n: nat): seq<LineMessage> { FirstN(Numbered(f), n) }

  // The last n lines at or below `line`.
  function QueryBefore(f: seq<Message>, line: nat, n: nat): seq<LineMessage> {
    LastN(Numbered(f)[..Least(line, |f|)], n)
  }

  // The first n lines at or above `line`.
  function QueryAfter(f: seq<Message>, line: nat, n: nat): seq<LineMessage> {
    FirstN(Numbered(f)[Least(if line > 0 then line - 1 else 0, |f|)..], n)
  }

  // ----- the whole log -----

  function Tagged(d: Date, ms: seq<LineMessage>): (r: seq<Entry>)
    ensures |r| == |ms| && forall i | 0 <= i < |ms| :: r[i] == Entry(d, ms[i].line, ms[i].message)
  {
    seq(|ms|, i requires 0 <= i < |ms| => Entry(d, ms[i].line, ms[i].message))
  }

  function Entries(d: Date, f: seq<Message>): seq<Entry> { Tagged(d, Numbered(f)) }

  function FlatDates(dates: seq<Date>, files: map<Date, seq<Message>>): seq<Entry> {
    if dates == [] then [] else Entries(dates[0], File(files, dates[0])) + FlatDates(dates[1..], files)
  }

  function Flat(log: Log): seq<Entry> { FlatDates(log.dates, log.files) }

  function FlatGroups(groups: seq<Group>): seq<Entry> {
    if groups == [] then [] else Tagged(groups[0].date, groups[0].messages) + FlatGroups(groups[1..])
  }

  // Position order: by date, then by line.
  predicate Earlier(a: Entry, b: Entry) { Comes(a, b.date, b.line) }

  predicate Comes(a: Entry, date: Date, line: nat) { a.date < date || (a.date == date && a.line < line) }

  // How many known dates lie below d.
  function Below(dates: seq<Date>, d: Date): (k: nat)
    ensures k <= |dates|
    ensures forall i | 0 <= i < k :: dates[i] < d
    ensures k < |dates| ==> dates[k] >= d
  {
    if dates == [] || dates[0] >= d then 0 else 1 + Below(dates[1..], d)
  }

  // The entries before (after) a position, date by date.
  function Before(log: Log, d: Date, line: nat): seq<Entry> {
    var f := File(log.files, d);
    FlatDates(log.dates[..Below(log.dates, d)], log.files)
      + Entries(d, f)[..Least(if line > 0 then line - 1 else 0, |f|)]
  }

  function After(log: Log, d: Date, line: nat): seq<Entry> {
    var f := File(log.files, d);
    Entries(d, f)[Least(line, |f|)..] + FlatDates(log.dates[Below(log.dates, d + 1)..], log.files)
  }

  // ----- writing -----

  const END_OF_DAY := 86399

  // A batch whose key date is not today gets the end of its own day.
  function StampFor(date: Date, now: Time): Time {
    if date == now.date then now else Time(date, END_OF_DAY)
  }

  function Stamped(ids: seq<string>, time: Time): (r: seq<Message>)
    ensures |r| == |ids| && forall i | 0 <= i < |ids| :: r[i] == Message(ids[i], time)
  {
    seq(|ids|, i requires 0 <= i < |ids| => Message(ids[i], time))
  }

  lemma StampedPush(ids: seq<string>, id: string, time: Time)
    ensures Stamped(ids + [id], time) == Stamped(ids, time) + [Message(id, time)]
  {
  }

  function InsertDate(dates: seq<Date>, d: Date): seq<Date> {
    if d in dates then dates else dates[..Below(dates, d)] + [d] + dates[Below(dates, d)..]
  }

  function Written(log: Log, date: Date, ids: seq<string>, now: Time): Log {
    Log(InsertDate(log.dates, date), log.files[date := File(log.files, date) + Stamped(ids, StampFor(date, now))])
  }

  // ----- sequences -----

  lemma {:induction false} FlatDatesConcat(a: seq<Date>, b: seq<Date>, files: map<Date, seq<Message>>)
    ensures FlatDates(a + b, files) == FlatDates(a, files) + FlatDates(b, files)
  {
    if a == [] {
      assert a + b == b;
    } else {
      assert (a + b)[1..] == a[1..] + b;
      FlatDatesConcat(a[1..], b, files);
    }
  }

  lemma {:induction false} FlatGroupsConcat(a: seq<Group>, b: seq<Group>)
    ensures FlatGroups(a + b) == FlatGroups(a) + FlatGroups(b)
  {
    if a == [] {
      assert a + b == b;
    } else {
      assert (a + b)[1..] == a[1..] + b;
      FlatGroupsConcat(a[1..], b);
    }
  }

  // ----- the log is the entries in position order -----

  ghost predicate Ordered(s: seq<Entry>) { forall i, j | 0 <= i < j < |s| :: Earlier(s[i], s[j]) }

  ghost predicate Has(dates: seq<Date>, files: map<Date, seq<Message>>, e: Entry) {
    e.date in dates && 1 <= e.line <= |File(files, e.date)| && File(files, e.date)[e.line - 1] == e.message
  }

  lemma {:induction false} FlatDatesHas(dates: seq<Date>, files: map<Date, seq<Message>>, e: Entry)
    ensures e in FlatDates(dates, files) <==> Has(dates, files, e)
  {
    if dates != [] {
      var d := dates[0];
      var f := File(files, d);
      FlatDatesHas(dates[1..], files, e);
      if e in Entries(d, f) {
        var i :| 0 <= i < |f| && Entries(d, f)[i] == e;
      }
      if e.date == d && 1 <= e.line <= |f| && f[e.line - 1] == e.message {
        assert Entries(d, f)[e.line - 1] == e;
      }
      assert Has(dates, files, e) <==> (e in Entries(d, f) || Has(dates[1..], files, e));
    }
  }

  lemma {:induction false} FlatDatesOrdered(dates: seq<Date>, files: map<Date, seq<Message>>)
    requires Increasing(dates)
    ensures Ordered(FlatDates(dates, files))
  {
    if dates != [] {
      var head, tail := Entries(dates[0], File(files, dates[0])), FlatDates(dates[1..], files);
      FlatDatesOrdered(dates[1..], files);
      forall e | e in tail
        ensures e.date > dates[0]
      {
        FlatDatesHas(dates[1..], files, e);
      }
      var s := head + tail;
      forall i, j | 0 <= i < j < |s|
        ensures Earlier(s[i], s[j])
      {
        if i < |head| <= j {
          assert s[j] in tail;
        } else if i >= |head| {
          assert s[i] == tail[i - |head|] && s[j] == tail[j - |head|];
        }
      }
    }
  }

  lemma {:induction false} FlatHas(log: Log, e: Entry)
    requires ValidLog(log)
    ensures e in Flat(log) <==>
            e.date in log.files && 1 <= e.line <= |log.files[e.date]| && log.files[e.date][e.line - 1] == e.message
  {
    FlatDatesHas(log.dates, log.files, e);
  }

  lemma {:induction false} BelowSplits(dates: seq<Date>, d: Date)
    requires Increasing(dates)
    ensures forall i | Below(dates, d) <= i < |dates| :: dates[i] >= d
    ensures d in dates ==>
              && Below(dates, d) < |dates| && dates[Below(dates, d)] == d
              && Below(dates, d + 1) == Below(dates, d) + 1
    ensures d !in dates ==> Below(dates, d + 1) == Below(dates, d)
  {
    var k := Below(dates, d);
    if d in dates {
      var i :| 0 <= i < |dates| && dates[i] == d;
      assert i == k;
      BelowIsUnique(dates, d + 1, k + 1);
    } else {
      BelowIsUnique(dates, d + 1, k);
    }
  }

  lemma {:induction false} BelowIsUnique(dates: seq<Date>, d: Date, k: nat)
    requires k <= |dates| && (forall i | 0 <= i < k :: dates[i] < d) && (k < |dates| ==> dates[k] >= d)
    ensures Below(dates, d) == k
  {
    if k > 0 {
      BelowIsUnique(dates[1..], d, k - 1);
    }
  }

  lemma {:induction false} FlatDatesWithin(dates: seq<Date>, files: map<Date, seq<Message>>, i: nat)
    requires i < |FlatDates(dates, files)|
    ensures FlatDates(dates, files)[i].date in dates
  {
    FlatDatesHas(dates, files, FlatDates(dates, files)[i]);
  }

  // The log splits at a date: what is earlier, its own entries, what is later.
  lemma {:induction false} FlatSplits(log: Log, d: Date)
    requires ValidLog(log)
    ensures Below(log.dates, d) <= Below(log.dates, d + 1)
    ensures var low := FlatDates(log.dates[..Below(log.dates, d)], log.files);
            var high := FlatDates(log.dates[Below(log.dates, d + 1)..], log.files);
      && Flat(log) == low + Entries(d, File(log.files, d)) + high
      && (forall i | 0 <= i < |low| :: low[i].date < d)
      && (forall i | 0 <= i < |high| :: high[i].date > d)
  {
    var dates, files := log.dates, log.files;
    var k, k' := Below(dates, d), Below(dates, d + 1);
    BelowSplits(dates, d);
    BelowSplits(dates, d + 1);
    FlatOfSplit(dates, files, d, k, k');
    var low, high := FlatDates(dates[..k], files), FlatDates(dates[k'..], files);
    forall i | 0 <= i < |low|
      ensures low[i].date < d
    {
      FlatDatesWithin(dates[..k], files, i);
    }
    forall i | 0 <= i < |high|
      ensures high[i].date > d
    {
      FlatDatesWithin(dates[k'..], files, i);
    }
  }

  lemma {:induction false} FlatOfSplit(dates: seq<Date>, files: map<Date, seq<Message>>, d: Date, k: nat, k': nat)
    requires k <= k' <= |dates| && if k' == k + 1 then dates[k] == d else k' == k && File(files, d) == []
    ensures FlatDates(dates, files) ==
            FlatDates(dates[..k], files) + Entries(d, File(files, d)) + FlatDates(dates[k'..], files)
  {
    FlatDatesAt(dates, files, k);
    FlatDatesFrom(dates, files, d, k, k');
    ConcatAssociates(FlatDates(dates[..k], files), Entries(d, File(files, d)), FlatDates(dates[k'..], files));
  }

  lemma {:induction false} ConcatAssociates(a: seq<Entry>, b: seq<Entry>, c: seq<Entry>)
    ensures a + (b + c) == a + b + c
  {
  }

  lemma {:induction false} FlatDatesFrom(dates: seq<Date>, files: map<Date, seq<Message>>, d: Date, k: nat, k': nat)
    requires k <= k' <= |dates| && if k' == k + 1 then dates[k] == d else k' == k && File(files, d) == []
    ensures FlatDates(dates[k..], files) == Entries(d, File(files, d)) + FlatDates(dates[k'..], files)
  {
    if k' == k + 1 {
      assert dates[k..][1..] == dates[k'..];
    } else {
      assert Entries(d, File(files, d)) == [];
    }
  }

  lemma {:induction false} FlatDatesAt(dates: seq<Date>, files: map<Date, seq<Message>>, k: nat)
    requires k <= |dates|
    ensures FlatDates(dates, files) == FlatDates(dates[..k], files) + FlatDates(dates[k..], files)
  {
    assert dates == dates[..k] + dates[k..];
    FlatDatesConcat(dates[..k], dates[k..], files);
  }

  // The entries before a position are the prefix of the log that comes before it.
  lemma {:induction false} BeforeIsPrefix(log: Log, d: Date, line: nat)
    requires ValidLog(log)
    ensures |Before(log, d, line)| <= |Flat(log)| && Before(log, d, line) == Flat(log)[..|Before(log, d, line)|]
    ensures forall i | 0 <= i < |Flat(log)| :: Comes(Flat(log)[i], d, line) <==> i < |Before(log, d, line)|
  {
    FlatSplits(log, d);
    var f := File(log.files, d);
    var low := FlatDates(log.dates[..Below(log.dates, d)], log.files);
    var high := FlatDates(log.dates[Below(log.dates, d + 1)..], log.files);
    CutAt(low, Entries(d, f), high, d, line);
  }

  lemma {:induction false} CutAt(low: seq<Entry>, mid: seq<Entry>, high: seq<Entry>, d: Date, line: nat)
    requires forall i | 0 <= i < |low| :: low[i].date < d
    requires forall i | 0 <= i < |mid| :: mid[i].date == d && mid[i].line == i + 1
    requires forall i | 0 <= i < |high| :: high[i].date > d
    ensures var flat, before := low + mid + high, low + mid[..Least(if line > 0 then line - 1 else 0, |mid|)];
      && |before| <= |flat| && before == flat[..|before|]
      && forall i | 0 <= i < |flat| :: Comes(flat[i], d, line) <==> i < |before|
  {
    var flat := low + mid + high;
    forall i | 0 <= i < |flat|
      ensures flat[i] ==
              if i < |low| then low[i] else if i < |low| + |mid| then mid[i - |low|] else high[i - |low| - |mid|]
    {
    }
  }

  // The entries after a line are the rest of the log behind it.
  lemma {:induction false} AfterIsSuffix(log: Log, d: Date, line: nat)
    requires ValidLog(log)
    ensures Flat(log) == Before(log, d, line + 1) + After(log, d, line)
  {
    var f, k, k' := File(log.files, d), Below(log.dates, d), Below(log.dates, d + 1);
    BelowSplits(log.dates, d);
    FlatOfSplit(log.dates, log.files, d, k, k');
    var low, mid, high := FlatDates(log.dates[..k], log.files), Entries(d, f), FlatDates(log.dates[k'..], log.files);
    var cut := Least(line, |f|);
    assert Before(log, d, line + 1) == low + mid[..cut] && After(log, d, line) == mid[cut..] + high;
    CutConcat(low, mid, high, cut);
  }

  lemma {:induction false} CutConcat(low: seq<Entry>, mid: seq<Entry>, high: seq<Entry>, cut: nat)
    requires cut <= |mid|
    ensures low + mid + high == (low + mid[..cut]) + (mid[cut..] + high)
  {
  }
}
