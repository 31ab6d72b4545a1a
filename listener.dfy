/** `MyStreamListener` (polarity.py:141-200): the micro-batching stream
    consumer. Each record is written to the sink and counted; a flush is
    made when the count reaches `max_wait_records` or the buffer's size
    reaches `max_wait_bytes` (checked after the row is written), or when the
    timer armed by the first record of a batch fires after
    `max_wait_seconds`. The timer thread is modelled as an explicit call of
    `TimerFires`, the clock as a `now` parameter, and the outcome of a POST
    that a call may make as a parameter too. */
module Listener {
  import opened Optional
  import opened Csv
  import opened Tweets
  import opened Sink

  /** The thresholds `__init__` uses when none are given: five minutes,
      ten thousand records, one megabyte. */
  const DefaultMaxWaitSeconds: real := 300.0
  const DefaultMaxWaitRecords: int := 10000
  const DefaultMaxWaitBytes: int := 1024 * 1024

  class MyStreamListener {
    const searchTerm: string
    const maxWaitSeconds: real
    const maxWaitRecords: int
    const maxWaitBytes: int
    const sink: TinybirdApiSink

    /** The number of `append` calls since the last flush. */
    var records: nat
    /** Whether a timer is armed. */
    var timer: bool
    /** When the armed timer was started. */
    var timerStart: Option<real>
    /** The values handed to `append` since the last flush, in order. */
    ghost var Pending: seq<Value>
    /** The time each of them arrived. */
    ghost var Arrivals: seq<real>

    /** The bookkeeping every method keeps, even midway through `append`:
        the counter counts the pending values, the sink holds exactly the
        rows of those the writer accepted, no flush is in progress, and the
        timer's start is known exactly while a timer is armed. */
    ghost predicate Coherent()
      reads this, sink
    {
      && sink.Valid()
      && !sink.wait
      && records == |Pending| == |Arrivals|
      && sink.Rows == Written(Pending)
      && (timer <==> timerStart.Some?)
    }

    /** Between calls, in addition: a timer is armed exactly while records
        are pending, and a non-empty batch is below both flush limits. */
    ghost predicate Valid()
      reads this, sink
    {
      && Coherent()
      && (timer <==> records > 0)
      && (records > 0 ==> timerStart == Some(Arrivals[0]))
      && (records == 0 || (records < maxWaitRecords && |sink.chunk| < maxWaitBytes))
    }

    /** `__init__` with the given search term and flush thresholds. */
    constructor (searchTerm: string, maxWaitSeconds: real, maxWaitRecords: int, maxWaitBytes: int)
      ensures Valid() && fresh(sink)
      ensures this.searchTerm == searchTerm && this.maxWaitSeconds == maxWaitSeconds
      ensures this.maxWaitRecords == maxWaitRecords && this.maxWaitBytes == maxWaitBytes
      ensures records == 0 && !timer && timerStart == None && Pending == [] && Arrivals == []
      ensures sink.chunk == "" && sink.Posted == []
    {
      this.searchTerm := searchTerm;
      this.maxWaitSeconds := maxWaitSeconds;
      this.maxWaitRecords := maxWaitRecords;
      this.maxWaitBytes := maxWaitBytes;
      sink := new TinybirdApiSink();
      records := 0;
      timer := false;
      timerStart := None;
      Pending := [];
      Arrivals := [];
    }

    /** `flush`: cancel and clear the timer; when records are pending, send
        them in one POST and zero the counter; otherwise make no POST. */
    method Flush(outcome: PostOutcome)
      requires Coherent()
      modifies this, sink
      ensures Valid()
      ensures records == 0 && Pending == [] && Arrivals == [] && !timer && timerStart == None
      ensures old(records) == 0 ==> sink.Posted == old(sink.Posted)
      ensures old(records) > 0 ==> sink.Posted == old(sink.Posted) + [RowsText(Written(old(Pending)))]
    {
      if timer {
        timer := false;
        timerStart := None;
      }
      if records == 0 {
        return;
      }
      var _ := sink.Flush(outcome);
      records := 0;
      Pending := [];
      Arrivals := [];
    }

    /** `append`: write the value, count it, and flush when either limit is
        reached; otherwise arm the timer if none is armed. */
    method Append(v: Value, now: real, outcome: PostOutcome)
      requires Valid()
      modifies this, sink
      ensures Valid()
      ensures
        var batch := old(Pending) + [v];
        var text := old(sink.chunk) + TextOf(v);
        if |batch| < maxWaitRecords && |text| < maxWaitBytes then
          && Pending == batch && Arrivals == old(Arrivals) + [now] && records == old(records) + 1
          && sink.chunk == text && sink.Posted == old(sink.Posted)
          && timer && timerStart == (if old(timer) then old(timerStart) else Some(now))
        else
          && Pending == [] && Arrivals == [] && records == 0 && sink.chunk == ""
          && !timer && timerStart == None && sink.Posted == old(sink.Posted) + [text]
      ensures maxWaitRecords > 0 && maxWaitBytes > 0 ==>
        records < maxWaitRecords && |sink.chunk| < maxWaitBytes
    {
      WrittenAppend(Pending, v);
      sink.Append(v);
      records := records + 1;
      Pending := Pending + [v];
      Arrivals := Arrivals + [now];
      var size := sink.Tell();
      if records < maxWaitRecords && size < maxWaitBytes {
        if !timer {
          timerStart := Some(now);
          timer := true;
        }
      } else {
        Flush(outcome);
      }
    }

    /** The timer's callback: it fires only while armed, once
        `max_wait_seconds` have passed since it was started, and calls
        `flush`, which then always makes its POST. */
    method TimerFires(now: real, outcome: PostOutcome)
      requires Valid() && timer && now >= timerStart.value + maxWaitSeconds
      modifies this, sink
      ensures Valid()
      ensures records == 0 && Pending == [] && Arrivals == [] && !timer && timerStart == None
      ensures old(records) > 0 && old(Arrivals)[0] + maxWaitSeconds <= now
      ensures sink.Posted == old(sink.Posted) + [old(sink.chunk)]
    {
      Flush(outcome);
    }

    /** `on_data` after the backpressure wait: build the record and append
        it, or skip the message, or raise before appending anything. */
    method OnData(ev: Event, formatDate: string -> Option<string>, score: string -> Option<int>,
                  now: real, outcome: PostOutcome) returns (r: Outcome)
      requires Valid()
      modifies this, sink
      ensures Valid()
      ensures r == BuildRecord(ev, searchTerm, formatDate, score)
      ensures !r.Record? ==>
        && records == old(records) && Pending == old(Pending) && Arrivals == old(Arrivals)
        && timer == old(timer) && timerStart == old(timerStart)
        && sink.chunk == old(sink.chunk) && sink.Posted == old(sink.Posted)
      ensures r.Record? ==>
        var batch := old(Pending) + [Row(r.row)];
        var text := old(sink.chunk) + RowText(r.row);
        if |batch| < maxWaitRecords && |text| < maxWaitBytes then
          && Pending == batch && Arrivals == old(Arrivals) + [now] && records == old(records) + 1
          && sink.chunk == text && sink.Posted == old(sink.Posted)
          && timer && timerStart == (if old(timer) then old(timerStart) else Some(now))
        else
          && Pending == [] && Arrivals == [] && records == 0 && sink.chunk == ""
          && !timer && timerStart == None && sink.Posted == old(sink.Posted) + [text]
    {
      r := BuildRecord(ev, searchTerm, formatDate, score);
      if r.Record? {
        Append(Row(r.row), now, outcome);
      }
    }
  }
}
