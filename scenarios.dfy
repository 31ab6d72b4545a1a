/** Clients of the listener that walk through the three flush triggers and
    the swallowed writer error, using only the listener's contracts. */
module Scenarios {
  import opened Optional
  import opened Csv
  import opened Sink
  import opened Tweets
  import opened Listener

  /** With `max_wait_records` = 3, the third append flushes the three rows
      in one POST, and the fourth starts a fresh batch. */
  method CountTrigger(a: seq<Field>, b: seq<Field>, c: seq<Field>, d: seq<Field>, outcome: PostOutcome)
    requires |RowText(a) + RowText(b) + RowText(c)| < 1024 * 1024
    requires |RowText(d)| < 1024 * 1024
  {
    var l := new MyStreamListener("covid", 300.0, 3, 1024 * 1024);
    l.Append(Row(a), 1.0, outcome);
    assert l.sink.chunk == RowText(a);
    l.Append(Row(b), 2.0, outcome);
    assert l.sink.chunk == RowText(a) + RowText(b);
    assert l.records == 2 && l.sink.Posted == [] && l.timerStart == Some(1.0);
    l.Append(Row(c), 3.0, outcome);
    assert l.sink.Posted == [RowText(a) + RowText(b) + RowText(c)];
    assert l.records == 0 && !l.timer;
    l.Append(Row(d), 4.0, outcome);
    assert l.records == 1 && l.timerStart == Some(4.0);
    assert |l.sink.Posted| == 1;
  }

  /** With `max_wait_bytes` = 10, a row of ten characters or more is
      flushed by the append that writes it: the size check comes after the
      write, so the batch sent can be larger than the limit. */
  method SizeTrigger(fs: seq<Field>, outcome: PostOutcome)
    requires |RowText(fs)| >= 10
  {
    var l := new MyStreamListener("covid", 300.0, 10000, 10);
    l.Append(Row(fs), 0.0, outcome);
    assert TextOf(Row(fs)) == RowText(fs);
    assert "" + RowText(fs) == RowText(fs);
    assert l.sink.Posted == [RowText(fs)];
    assert l.records == 0 && !l.timer;
  }

  /** A single record and no further activity: the timer armed by the
      record fires after `max_wait_seconds` and sends it; the timer is not
      re-armed, and a later flush of the empty buffer makes no POST. */
  method TimeTrigger(fs: seq<Field>, outcome: PostOutcome)
    requires |RowText(fs)| < 1024 * 1024
  {
    var l := new MyStreamListener("covid", 5.0, 10000, 1024 * 1024);
    l.Append(Row(fs), 100.0, outcome);
    assert l.sink.chunk == RowText(fs);
    assert l.timer && l.timerStart == Some(100.0);
    l.TimerFires(105.0, outcome);
    assert l.sink.Posted == [RowText(fs)];
    assert !l.timer && l.records == 0;
    l.Flush(outcome);
    assert l.sink.Posted == [RowText(fs)];
  }

  /** A value the csv writer rejects is still counted: the counter runs
      ahead of the rows in the buffer, and a flush of such a batch sends an
      empty body. */
  method SwallowedWriterError(outcome: PostOutcome)
  {
    var l := new MyStreamListener("covid", 300.0, 10000, 1024 * 1024);
    l.Append(NotARow, 0.0, outcome);
    assert l.records == 1 && l.sink.chunk == "" && l.timer;
    l.Flush(outcome);
    assert l.sink.Posted == [""];
  }

  /** Two messages that both make records, under the default thresholds:
      the timer armed by the first keeps its start when the second is
      appended. */
  method OnDataKeepsTimerStart(ev1: Event, ev2: Event, formatDate: string -> Option<string>,
                               score: string -> Option<int>, row1: seq<Field>, row2: seq<Field>,
                               outcome: PostOutcome)
    requires BuildRecord(ev1, "covid", formatDate, score) == Record(row1)
    requires BuildRecord(ev2, "covid", formatDate, score) == Record(row2)
    requires |RowText(row1) + RowText(row2)| < DefaultMaxWaitBytes
  {
    var l := new MyStreamListener("covid", DefaultMaxWaitSeconds, DefaultMaxWaitRecords, DefaultMaxWaitBytes);
    var r1 := l.OnData(ev1, formatDate, score, 5.0, outcome);
    assert l.records == 1 && l.timerStart == Some(5.0);
    var r2 := l.OnData(ev2, formatDate, score, 10.0, outcome);
    assert l.records == 2 && l.timerStart == Some(5.0);
  }
}
