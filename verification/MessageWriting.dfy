// What a write stores: the whole batch, in order, at the end of its file.
module MessageWriting {
  import opened MessageLog
  import opened MessagePaging
  import opened Sequences

  // The batch behind the old lines of its file, one line per record in order, each with the
  // time of the write or, on another day than its key's, the last second of that day.
  ghost predicate Stores(prior: seq<Message>, file: seq<Message>, date: Date, ids: seq<string>, now: Time) {
    && |file| == |prior| + |ids| && prior <= file
    && forall i | 0 <= i < |ids| ::
         file[|prior| + i] == Message(ids[i], if now.date == date then now else Time(date, 86399))
  }

  // The file of the key date gets the whole batch, no other file changes, and the log gains
  // exactly the batch, in order, at the place of the file's end.
  lemma {:induction false} WriteStoresBatch(log: Log, date: Date, ids: seq<string>, now: Time)
    requires ValidLog(log)
    ensures var log', prior := Written(log, date, ids, now), File(log.files, date);
      && date in log'.files && Stores(prior, log'.files[date], date, ids, now)
      && (forall d | d != date :: d in log'.files <==> d in log.files)
      && (forall d | d != date && d in log.files :: log'.files[d] == log.files[d])
      && var k := |Before(log, date, |prior| + 1)|;
         k <= |Flat(log)| && Flat(log') == Flat(log)[..k] + NewEntries(date, |prior|, log'.files[date]) + Flat(log)[k..]
  {
    FileGetsBatch(log, date, ids, now);
    LogGainsBatch(log, date, ids, now);
  }

  lemma {:induction false} FileGetsBatch(log: Log, date: Date, ids: seq<string>, now: Time)
    ensures var log', prior := Written(log, date, ids, now), File(log.files, date);
      && date in log'.files && Stores(prior, log'.files[date], date, ids, now)
      && (forall d | d != date :: d in log'.files <==> d in log.files)
      && (forall d | d != date && d in log.files :: log'.files[d] == log.files[d])
  {
  }

  lemma {:induction false} LogGainsBatch(log: Log, date: Date, ids: seq<string>, now: Time)
    requires ValidLog(log)
    ensures var log', prior := Written(log, date, ids, now), File(log.files, date);
            var k := |Before(log, date, |prior| + 1)|;
      && |prior| <= |File(log'.files, date)| && k <= |Flat(log)|
      && Flat(log') ==
         Flat(log)[..k] + NewEntries(date, |prior|, File(log'.files, date)) + Flat(log)[k..]
  {
    var log', prior := Written(log, date, ids, now), File(log.files, date);
    var file := File(log'.files, date);
    WritingGrows(log, date, ids, now);
    FlatSplits(log, date);
    FlatSplits(log', date);
    SameAround(log, log', date);
    EntriesGrow(date, prior, file);
    BeforeEnd(log, date);
    PlacedBetween(FlatDates(log.dates[..Below(log.dates, date)], log.files), Entries(date, prior),
                  NewEntries(date, |prior|, file),
                  FlatDates(log.dates[Below(log.dates, date + 1)..], log.files));
  }

  lemma {:induction false} EntriesGrow(date: Date, prior: seq<Message>, file: seq<Message>)
    requires prior <= file
    ensures Entries(date, file) == Entries(date, prior) + NewEntries(date, |prior|, file)
  {
  }

  // What comes before the line behind a file's last one.
  lemma {:induction false} BeforeEnd(log: Log, date: Date)
    ensures var prior := File(log.files, date);
            Before(log, date, |prior| + 1) ==
            FlatDates(log.dates[..Below(log.dates, date)], log.files) + Entries(date, prior)
  {
    var prior := File(log.files, date);
    assert Entries(date, prior)[..|prior|] == Entries(date, prior);
  }

  // The entries of a file's lines from line `from` + 1 on.
  function NewEntries(date: Date, from: nat, file: seq<Message>): (r: seq<Entry>)
    requires from <= |file|
    ensures |r| == |file| - from && forall i | 0 <= i < |r| :: r[i] == Entry(date, from + i + 1, file[from + i])
  {
    seq(|file| - from, i requires 0 <= i < |file| - from => Entry(date, from + i + 1, file[from + i]))
  }

  lemma {:induction false} PlacedBetween(a: seq<Entry>, x: seq<Entry>, y: seq<Entry>, b: seq<Entry>)
    ensures var whole := a + x + b; a + (x + y) + b == whole[..|a + x|] + y + whole[|a + x|..]
  {
    var whole := a + x + b;
    assert whole[..|a + x|] == a + x && whole[|a + x|..] == b;
  }

  lemma {:induction false} FlatDatesSame(dates: seq<Date>, files: map<Date, seq<Message>>,
                                         files': map<Date, seq<Message>>)
    requires forall d | d in dates :: File(files, d) == File(files', d)
    ensures FlatDates(dates, files) == FlatDates(dates, files')
  {
    if dates != [] {
      FlatDatesSame(dates[1..], files, files');
    }
  }

  // Around the key date the log is what it was.
  lemma {:induction false} SameAround(log: Log, log': Log, date: Date)
    requires ValidLog(log) && log'.dates == InsertDate(log.dates, date)
    requires forall d | d != date :: File(log'.files, d) == File(log.files, d)
    ensures FlatDates(log'.dates[..Below(log'.dates, date)], log'.files) ==
            FlatDates(log.dates[..Below(log.dates, date)], log.files)
    ensures FlatDates(log'.dates[Below(log'.dates, date + 1)..], log'.files) ==
            FlatDates(log.dates[Below(log.dates, date + 1)..], log.files)
  {
    InsertionPoint(log.dates, date);
    var low, high := log.dates[..Below(log.dates, date)], log.dates[Below(log.dates, date + 1)..];
    BelowSplits(log.dates, date + 1);
    FlatDatesSame(low, log.files, log'.files);
    FlatDatesSame(high, log.files, log'.files);
  }

  lemma {:induction false} InsertionPoint(dates: seq<Date>, d: Date)
    requires Increasing(dates)
    ensures var dates' := InsertDate(dates, d);
      && dates'[..Below(dates', d)] == dates[..Below(dates, d)]
      && dates'[Below(dates', d + 1)..] == dates[Below(dates, d + 1)..]
  {
    var k, dates' := Below(dates, d), InsertDate(dates, d);
    BelowSplits(dates, d);
    if d !in dates {
      assert dates' == dates[..k] + [d] + dates[k..];
      BelowIsUnique(dates', d, k);
      BelowIsUnique(dates', d + 1, k + 1);
      assert dates'[k + 1..] == dates[k..];
    }
  }
}
