// Two properties of the log over time: paging backwards while messages arrive, and the
// order of the stamps the writer gives.
module MessagePaging {
  import opened MessageLog
  import opened Sequences

  // ----- the log only grows -----

  ghost predicate Grows(log: Log, log': Log) {
    forall d | d in log.files :: d in log'.files && log.files[d] <= log'.files[d]
  }

  lemma {:induction false} InsertDateInserts(dates: seq<Date>, d: Date)
    requires Increasing(dates)
    ensures Increasing(InsertDate(dates, d)) && forall x :: x in InsertDate(dates, d) <==> x in dates || x == d
  {
    var k := Below(dates, d);
    BelowSplits(dates, d);
    if d !in dates {
      assert dates == dates[..k] + dates[k..];
      InsertIncreases(dates, d, k);
    }
  }

  lemma {:induction false} InsertIncreases(dates: seq<Date>, d: Date, k: nat)
    requires Increasing(dates) && k <= |dates|
    requires (forall i | 0 <= i < k :: dates[i] < d) && (forall i | k <= i < |dates| :: dates[i] > d)
    ensures Increasing(dates[..k] + [d] + dates[k..])
  {
    var r := dates[..k] + [d] + dates[k..];
    forall i | 0 <= i < |r|
      ensures r[i] == if i < k then dates[i] else if i == k then d else dates[i - 1]
    {
    }
  }

  lemma WritingGrows(log: Log, date: Date, ids: seq<string>, now: Time)
    requires ValidLog(log)
    ensures ValidLog(Written(log, date, ids, now)) && Grows(log, Written(log, date, ids, now))
  {
    InsertDateInserts(log.dates, date);
  }

  lemma GrowthKeepsEntries(log: Log, log': Log, e: Entry)
    requires ValidLog(log) && ValidLog(log') && Grows(log, log') && e in Flat(log)
    ensures e in Flat(log')
  {
    FlatHas(log, e);
    FlatHas(log', e);
  }

  // ----- paging -----

  // Page i + 1 is asked of log i + 1 with the first message of page i as the cursor.
  ghost predicate Paging(logs: seq<Log>, sizes: seq<nat>, pages: seq<seq<Entry>>) {
    && |logs| == |sizes| == |pages| > 0
    && (forall i | 0 <= i < |logs| :: ValidLog(logs[i]) && sizes[i] >= 1)
    && (forall i, j | 0 <= i < j < |logs| :: Grows(logs[i], logs[j]))
    && pages[0] == LastN(Flat(logs[0]), sizes[0])
    && (forall i {:trigger NextPage(logs, sizes, pages, i)} | 0 <= i < |pages| - 1 :: NextPage(logs, sizes, pages, i))
  }

  ghost predicate NextPage(logs: seq<Log>, sizes: seq<nat>, pages: seq<seq<Entry>>, i: nat)
    requires |logs| == |sizes| == |pages| && i + 1 < |pages|
  {
    pages[i] != [] && pages[i + 1] == LastN(Before(logs[i + 1], pages[i][0].date, pages[i][0].line), sizes[i + 1])
  }

  // What the reader has on screen: later pages go in front.
  function Shown(pages: seq<seq<Entry>>): seq<Entry> {
    if pages == [] then [] else pages[|pages| - 1] + Shown(pages[..|pages| - 1])
  }

  // Everything in `log` from the first message of the last page on is shown.
  ghost predicate ShownFrom(log: Log, shown: seq<Entry>, first: seq<Entry>) {
    forall e | e in Flat(log) && (first == [] || !Earlier(e, first[0])) :: e in shown
  }

  lemma LastNOfOrdered(s: seq<Entry>, n: nat)
    requires Ordered(s) && n >= 1
    ensures Ordered(LastN(s, n)) && (LastN(s, n) == [] ==> s == [])
    ensures forall e | e in s && (LastN(s, n) == [] || !Earlier(e, LastN(s, n)[0])) :: e in LastN(s, n)
    ensures forall e | e in LastN(s, n) :: e in s
  {
    var last := LastN(s, n);
    forall e | e in s && (last == [] || !Earlier(e, last[0]))
      ensures e in last
    {
      var i :| 0 <= i < |s| && s[i] == e;
      if n < |s| {
        assert last[0] == s[|s| - n];
        assert i >= |s| - n ==> last[i - (|s| - n)] == e;
      }
    }
  }

  lemma OrderedConcat(a: seq<Entry>, b: seq<Entry>)
    requires Ordered(a) && Ordered(b) && forall e | e in a :: b == [] || Earlier(e, b[0])
    ensures Ordered(a + b)
  {
    forall i, j | 0 <= i < j < |a + b|
      ensures Earlier((a + b)[i], (a + b)[j])
    {
      if i < |a| <= j {
        assert a[i] in a && (j == |a| || Earlier(b[0], b[j - |a|]));
      }
    }
  }

  lemma BeforeOrdered(log: Log, d: Date, line: nat)
    requires ValidLog(log)
    ensures Ordered(Before(log, d, line))
    ensures forall e :: e in Before(log, d, line) <==> e in Flat(log) && Comes(e, d, line)
  {
    BeforeIsPrefix(log, d, line);
    FlatDatesOrdered(log.dates, log.files);
    var flat, before := Flat(log), Before(log, d, line);
    forall e | e in flat && Comes(e, d, line)
      ensures e in before
    {
      var i :| 0 <= i < |flat| && flat[i] == e;
      assert before[i] == e;
    }
    forall e | e in before
      ensures e in flat && Comes(e, d, line)
    {
      var i :| 0 <= i < |before| && before[i] == e;
      assert flat[i] == e;
    }
  }

  // While paging, what is shown is in log order without repetition, and no message of the
  // first query's log lies between what is shown.
  lemma {:induction false} PagesConnect(logs: seq<Log>, sizes: seq<nat>, pages: seq<seq<Entry>>)
    requires Paging(logs, sizes, pages)
    ensures Ordered(Shown(pages)) && ShownFrom(logs[0], Shown(pages), pages[|pages| - 1])
    ensures pages[|pages| - 1] != [] ==> Shown(pages) != [] && Shown(pages)[0] == pages[|pages| - 1][0]
    ensures forall e | e in Shown(pages) :: e in Flat(logs[|logs| - 1])
    decreases |pages|
  {
    var m := |pages| - 1;
    if m == 0 {
      assert pages[..0] == [] && Shown(pages) == pages[0];
      FlatDatesOrdered(logs[0].dates, logs[0].files);
      LastNOfOrdered(Flat(logs[0]), sizes[0]);
    } else {
      PagingPrefix(logs, sizes, pages);
      PagesConnect(logs[..m], sizes[..m], pages[..m]);
      assert NextPage(logs, sizes, pages, m - 1);
      var first, page, shown := pages[m - 1][0], pages[m], Shown(pages[..m]);
      BeforeOrdered(logs[m], first.date, first.line);
      LastNOfOrdered(Before(logs[m], first.date, first.line), sizes[m]);
      OrderedConcat(page, shown);
      forall e | e in Flat(logs[0]) && (page == [] || !Earlier(e, page[0]))
        ensures e in Shown(pages)
      {
        if Earlier(e, first) {
          GrowthKeepsEntries(logs[0], logs[m], e);
          assert e in page;
        }
      }
      forall e | e in shown
        ensures e in Flat(logs[m])
      {
        GrowthKeepsEntries(logs[m - 1], logs[m], e);
      }
    }
  }

  lemma {:induction false} PagingPrefix(logs: seq<Log>, sizes: seq<nat>, pages: seq<seq<Entry>>)
    requires Paging(logs, sizes, pages) && |pages| > 1
    ensures Paging(logs[..|logs| - 1], sizes[..|sizes| - 1], pages[..|pages| - 1])
  {
    var l, s, p := logs[..|logs| - 1], sizes[..|sizes| - 1], pages[..|pages| - 1];
    forall i {:trigger NextPage(l, s, p, i)} | 0 <= i < |p| - 1
      ensures NextPage(l, s, p, i)
    {
      assert NextPage(logs, sizes, pages, i);
    }
  }

  // Once a page comes back empty, the reader has seen every message that existed at the
  // first query exactly once and in log order, although messages were appended meanwhile.
  lemma {:induction false} PagingVisitsAll(logs: seq<Log>, sizes: seq<nat>, pages: seq<seq<Entry>>)
    requires Paging(logs, sizes, pages) && pages[|pages| - 1] == []
    ensures Ordered(Shown(pages))
    ensures forall e | e in Flat(logs[0]) :: e in Shown(pages)
  {
    PagesConnect(logs, sizes, pages);
  }

  ghost predicate GrowInto(logs: seq<Log>, end: Log) { forall i | 0 <= i < |logs| :: Grows(logs[i], end) }

  // How far the cursor of page j still is from the start of the final log.
  lemma {:induction false} PagesDescend(logs: seq<Log>, sizes: seq<nat>, pages: seq<seq<Entry>>, j: nat, end: Log)
    requires Paging(logs, sizes, pages) && ValidLog(end) && GrowInto(logs, end)
    requires j < |pages| && pages[j] != []
    ensures j + 1 + |Before(end, pages[j][0].date, pages[j][0].line)| <= |Flat(end)|
    decreases j
  {
    CursorIsLogged(logs, sizes, pages, j);
    GrowthKeepsEntries(logs[j], end, pages[j][0]);
    CursorMoves(end, pages[j][0]);
    if j > 0 {
      PageBefore(logs, sizes, pages, j - 1);
      PagesDescend(logs, sizes, pages, j - 1, end);
      CursorMovesTo(end, pages[j][0], pages[j - 1][0]);
    }
  }

  lemma {:induction false} CursorIsLogged(logs: seq<Log>, sizes: seq<nat>, pages: seq<seq<Entry>>, j: nat)
    requires Paging(logs, sizes, pages) && j < |pages| && pages[j] != []
    ensures pages[j][0] in Flat(logs[j])
  {
    if j > 0 {
      assert NextPage(logs, sizes, pages, j - 1);
      var first := pages[j - 1][0];
      BeforeOrdered(logs[j], first.date, first.line);
      assert pages[j][0] in Before(logs[j], first.date, first.line);
    }
  }

  lemma {:induction false} PageBefore(logs: seq<Log>, sizes: seq<nat>, pages: seq<seq<Entry>>, i: nat)
    requires Paging(logs, sizes, pages) && i + 1 < |pages|
    ensures pages[i] != [] && (pages[i + 1] != [] ==> Earlier(pages[i + 1][0], pages[i][0]))
  {
    assert NextPage(logs, sizes, pages, i);
    var first := pages[i][0];
    BeforeOrdered(logs[i + 1], first.date, first.line);
    assert pages[i + 1] != [] ==> pages[i + 1][0] in Before(logs[i + 1], first.date, first.line);
  }

  lemma {:induction false} CursorMoves(end: Log, e: Entry)
    requires ValidLog(end) && e in Flat(end)
    ensures |Before(end, e.date, e.line)| < |Flat(end)|
  {
    BeforeIsPrefix(end, e.date, e.line);
    var i :| 0 <= i < |Flat(end)| && Flat(end)[i] == e;
  }

  lemma {:induction false} CursorMovesTo(end: Log, e: Entry, first: Entry)
    requires ValidLog(end) && e in Flat(end) && Earlier(e, first)
    ensures |Before(end, e.date, e.line)| < |Before(end, first.date, first.line)|
  {
    BeforeIsPrefix(end, e.date, e.line);
    BeforeIsPrefix(end, first.date, first.line);
    var i :| 0 <= i < |Flat(end)| && Flat(end)[i] == e;
    assert Comes(Flat(end)[i], first.date, first.line);
  }

  // Paging a log that ends up finite comes to an empty page after at most one page per message.
  lemma {:induction false} PagingTerminates(logs: seq<Log>, sizes: seq<nat>, pages: seq<seq<Entry>>, end: Log)
    requires Paging(logs, sizes, pages) && ValidLog(end) && GrowInto(logs, end)
    ensures |pages| <= |Flat(end)| + 1
  {
    var m := |pages| - 1;
    if pages[m] != [] {
      PagesDescend(logs, sizes, pages, m, end);
    } else if m > 0 {
      PageBefore(logs, sizes, pages, m - 1);
      PagesDescend(logs, sizes, pages, m - 1, end);
    }
  }

  // ----- stamps -----

  predicate NotAfter(a: Time, b: Time) { a.date < b.date || (a.date == b.date && a.second <= b.second) }

  ghost predicate Sorted(s: seq<Message>) { forall i, j | 0 <= i < j < |s| :: NotAfter(s[i].time, s[j].time) }

  // Every record carries its file's date, files are in time order, and nothing is stamped
  // later than the clock of the last write.
  ghost predicate Stamps(log: Log, clock: Time) {
    && clock.second <= END_OF_DAY
    && (forall d | d in log.files :: Sorted(log.files[d]))
    && (forall d, m | d in log.files && m in log.files[d] ::
          m.time.date == d && m.time.second <= END_OF_DAY && d <= clock.date)
    && (clock.date in log.files ==> forall m | m in log.files[clock.date] :: m.time.second <= clock.second)
  }

  datatype Batch = Batch(date: Date, ids: seq<string>, now: Time)

  function WriteAll(log: Log, batches: seq<Batch>): Log {
    if batches == [] then log
    else
      var b := batches[|batches| - 1];
      Written(WriteAll(log, batches[..|batches| - 1]), b.date, b.ids, b.now)
  }

  // A clock that does not run backwards, and no batch for a future date.
  ghost predicate Timely(clock: Time, batches: seq<Batch>) {
    && (forall i | 0 <= i < |batches| :: batches[i].now.second <= END_OF_DAY && batches[i].date <= batches[i].now.date)
    && (forall i | 0 <= i < |batches| :: NotAfter(clock, batches[i].now))
    && (forall i, j | 0 <= i < j < |batches| :: NotAfter(batches[i].now, batches[j].now))
  }

  // A file of date d stamped up to `second`.
  ghost predicate StampedFile(f: seq<Message>, d: Date, second: nat) {
    Sorted(f) && forall m | m in f :: m.time.date == d && m.time.second <= second
  }

  lemma {:induction false} AppendStamped(f: seq<Message>, d: Date, second: nat, ids: seq<string>, later: nat)
    requires StampedFile(f, d, second) && second <= later
    ensures StampedFile(f + Stamped(ids, Time(d, later)), d, later)
  {
    var g := f + Stamped(ids, Time(d, later));
    assert forall i | |f| <= i < |g| :: g[i].time == Time(d, later);
    assert forall i | 0 <= i < |f| :: g[i] in f;
    assert forall m | m in g :: m in f || m.time == Time(d, later);
  }

  lemma {:induction false} WriteKeepsStamps(log: Log, clock: Time, b: Batch)
    requires Stamps(log, clock) && NotAfter(clock, b.now) && b.now.second <= END_OF_DAY && b.date <= b.now.date
    ensures Stamps(Written(log, b.date, b.ids, b.now), b.now)
  {
    var prior, time := File(log.files, b.date), StampFor(b.date, b.now);
    var file := prior + Stamped(b.ids, time);
    AppendStamped(prior, b.date, time.second, b.ids, time.second);
    var log' := Written(log, b.date, b.ids, b.now);
    assert log'.files == log.files[b.date := file];
    assert StampedFile(file, b.date, time.second);
    forall d, m | d in log'.files && m in log'.files[d]
      ensures m.time.date == d && m.time.second <= END_OF_DAY && d <= b.now.date
      ensures d == b.now.date ==> m.time.second <= b.now.second
    {
      assert d != b.date ==> m in log.files[d];
    }
  }

  ghost predicate Dated(log: Log) { forall d, m | d in log.files && m in log.files[d] :: m.time.date == d }

  ghost predicate TimeSorted(log: Log) {
    forall i, j | 0 <= i < j < |Flat(log)| :: NotAfter(Flat(log)[i].message.time, Flat(log)[j].message.time)
  }

  // When records carry their file's date, the log is sorted exactly when every file is.
  lemma {:induction false} SortedByFiles(log: Log)
    requires ValidLog(log) && Dated(log)
    ensures TimeSorted(log) <==> forall d | d in log.files :: Sorted(log.files[d])
  {
    if forall d | d in log.files :: Sorted(log.files[d]) {
      FilesSortLog(log);
    }
    if TimeSorted(log) {
      LogSortsFiles(log);
    }
  }

  lemma {:induction false} FilesSortLog(log: Log)
    requires ValidLog(log) && Dated(log) && forall d | d in log.files :: Sorted(log.files[d])
    ensures TimeSorted(log)
  {
    var flat := Flat(log);
    FlatDatesOrdered(log.dates, log.files);
    forall i, j | 0 <= i < j < |flat|
      ensures NotAfter(flat[i].message.time, flat[j].message.time)
    {
      FlatHas(log, flat[i]);
      FlatHas(log, flat[j]);
      assert Earlier(flat[i], flat[j]);
      var f, g := log.files[flat[i].date], log.files[flat[j].date];
      assert f[flat[i].line - 1] in f && g[flat[j].line - 1] in g;
    }
  }

  lemma {:induction false} LogSortsFiles(log: Log)
    requires ValidLog(log) && TimeSorted(log)
    ensures forall d | d in log.files :: Sorted(log.files[d])
  {
    forall d, i, j | d in log.files && 0 <= i < j < |log.files[d]|
      ensures NotAfter(log.files[d][i].time, log.files[d][j].time)
    {
      LinesInOrder(log, Entry(d, i + 1, log.files[d][i]), Entry(d, j + 1, log.files[d][j]));
    }
  }

  lemma {:induction false} LinesInOrder(log: Log, a: Entry, b: Entry)
    requires ValidLog(log) && TimeSorted(log) && Earlier(a, b)
    requires forall e | e == a || e == b ::
               e.date in log.files && 1 <= e.line <= |log.files[e.date]| && log.files[e.date][e.line - 1] == e.message
    ensures NotAfter(a.message.time, b.message.time)
  {
    FlatDatesOrdered(log.dates, log.files);
    FlatHas(log, a);
    FlatHas(log, b);
    EntriesInOrder(Flat(log), a, b);
  }

  lemma {:induction false} EntriesInOrder(flat: seq<Entry>, a: Entry, b: Entry)
    requires Ordered(flat) && a in flat && b in flat && Earlier(a, b)
    requires forall i, j | 0 <= i < j < |flat| :: NotAfter(flat[i].message.time, flat[j].message.time)
    ensures NotAfter(a.message.time, b.message.time)
  {
    var x, y :| 0 <= x < |flat| && flat[x] == a && 0 <= y < |flat| && flat[y] == b;
    assert x < y;
  }

  // In every state the writer reaches that way, each file's times carry the file's date
  // and do not decrease, and so the log flattened across the dates is sorted by time.
  lemma {:induction false} FlatLogIsTimeSorted(log: Log, clock: Time, batches: seq<Batch>)
    requires ValidLog(log) && Stamps(log, clock) && Timely(clock, batches)
    ensures var end := WriteAll(log, batches);
      && ValidLog(end)
      && Stamps(end, if batches == [] then clock else batches[|batches| - 1].now)
      && TimeSorted(end)
    decreases |batches|
  {
    if batches != [] {
      var init, b := batches[..|batches| - 1], batches[|batches| - 1];
      FlatLogIsTimeSorted(log, clock, init);
      WritingGrows(WriteAll(log, init), b.date, b.ids, b.now);
      WriteKeepsStamps(WriteAll(log, init), if init == [] then clock else init[|init| - 1].now, b);
    }
    SortedByFiles(WriteAll(log, batches));
  }

  // ----- the exact condition -----

  // Whatever the clock shows and whatever date the batch is for, a write keeps the log
  // sorted if and only if its stamp is not before the last one in the file it goes to.
  lemma {:induction false} WriteKeepsOrderIff(log: Log, date: Date, ids: seq<string>, now: Time)
    requires ValidLog(log) && Dated(log) && TimeSorted(log)
    ensures Dated(Written(log, date, ids, now))
    ensures TimeSorted(Written(log, date, ids, now)) <==>
            var f := File(log.files, date);
            ids == [] || f == [] || f[|f| - 1].time.second <= StampFor(date, now).second
  {
    var log' := Written(log, date, ids, now);
    var f, stamp := File(log.files, date), StampFor(date, now);
    WritingGrows(log, date, ids, now);
    WrittenIsDated(log, date, ids, now);
    SortedByFiles(log);
    SortedByFiles(log');
    assert f != [] ==> f[|f| - 1] in log.files[date];
    AppendKeepsSortedIff(f, ids, stamp);
    assert forall d | d in log'.files && d != date :: log'.files[d] == log.files[d];
  }

  lemma {:induction false} WrittenIsDated(log: Log, date: Date, ids: seq<string>, now: Time)
    requires Dated(log)
    ensures Dated(Written(log, date, ids, now))
  {
    var log' := Written(log, date, ids, now);
    forall d, m | d in log'.files && m in log'.files[d]
      ensures m.time.date == d
    {
      assert d != date ==> m in log.files[d];
      assert d == date && m !in File(log.files, date) ==> m in Stamped(ids, StampFor(date, now));
    }
  }

  lemma {:induction false} AppendKeepsSortedIff(f: seq<Message>, ids: seq<string>, stamp: Time)
    requires Sorted(f)
    ensures Sorted(f + Stamped(ids, stamp)) <==> ids == [] || f == [] || NotAfter(f[|f| - 1].time, stamp)
  {
    var g := f + Stamped(ids, stamp);
    assert forall i | |f| <= i < |g| :: g[i].time == stamp;
    if ids != [] && f != [] {
      assert g[|f| - 1] == f[|f| - 1] && g[|f|].time == stamp;
    }
  }

  // A batch for a future date breaks the order as soon as that day has a write of its own.
  lemma FutureBatchBreaksOrder(log: Log, date: Date, early: seq<string>, now: Time, late: seq<string>, later: Time)
    requires now.date < date && later.date == date && later.second < END_OF_DAY && early != [] && late != []
    ensures !Sorted(Written(Written(log, date, early, now), date, late, later).files[date])
  {
    var f := File(log.files, date) + Stamped(early, Time(date, END_OF_DAY));
    var g := f + Stamped(late, later);
    assert Written(Written(log, date, early, now), date, late, later).files[date] == g;
    assert g[|f| - 1].time == Time(date, END_OF_DAY) && g[|f|].time == later;
  }
}
