/** `TinybirdApiSink` (polarity.py:90-138): an in-memory CSV buffer that
    rows are written to one by one and that is sent, whole, in one POST when
    flushed. The HTTP session with its retry policy is outside the model:
    what the POST came to is passed in, and the bodies of the POSTs made are
    kept in a ghost log so that contracts can speak of them. */
module Sink {
  import opened Seqs
  import opened Csv

  /** What the POST came to, after the session's own retries: a response
      with its status code, or an exception. */
  datatype PostOutcome = Response(status: int) | Failure

  /** `response.status_code < 400`; an exception counts as not accepted. */
  predicate Accepted(o: PostOutcome) {
    o.Response? && o.status < 400
  }

  /** The rows the csv writer actually wrote for a run of `writerow` calls:
      the values it raised on leave nothing. */
  function Written(vs: seq<Value>): (rows: seq<seq<Field>>)
    ensures |rows| <= |vs|
  {
    if vs == [] then []
    else (if vs[0].Row? then [vs[0].fields] else []) + Written(vs[1..])
  }

  lemma {:induction false} WrittenAppend(vs: seq<Value>, v: Value)
    ensures Written(vs + [v]) == Written(vs) + (if v.Row? then [v.fields] else [])
  {
    if vs == [] {
      assert vs + [v] == [v];
    } else {
      AppendTail(vs, [v]);
      WrittenAppend(vs[1..], v);
      Assoc(if vs[0].Row? then [vs[0].fields] else [], Written(vs[1..]),
            if v.Row? then [v.fields] else []);
    }
  }

  /** What one `writerow(v)` adds to the buffer. */
  function TextOf(v: Value): string
  {
    match WriteRow(v)
    case Some(line) => line
    case None => ""
  }

  class TinybirdApiSink {
    /** The contents of `csv_chunk`, as `getvalue()` returns them. */
    var chunk: string
    /** Set while a flush is in progress. */
    var wait: bool
    /** The rows written since the last reset, in order. */
    ghost var Rows: seq<seq<Field>>
    /** The bodies of the POSTs made so far, in order. */
    ghost var Posted: seq<string>

    ghost predicate Valid()
      reads this
    {
      chunk == RowsText(Rows)
    }

    /** `__init__`: an empty buffer, no flush in progress. */
    constructor ()
      ensures Valid() && Rows == [] && chunk == ""
      ensures !wait && Posted == []
    {
      chunk := "";
      Rows := [];
      wait := false;
      Posted := [];
    }

    /** `reset`: a new, empty buffer; no header row is written. */
    method Reset()
      modifies this
      ensures Valid() && Rows == [] && chunk == ""
      ensures wait == old(wait) && Posted == old(Posted)
    {
      chunk := "";
      Rows := [];
    }

    /** `append`: write one row; an exception from the writer is swallowed
        and leaves the buffer as it was. */
    method Append(v: Value)
      requires Valid()
      modifies this
      ensures Valid()
      ensures Rows == old(Rows) + (if v.Row? then [v.fields] else [])
      ensures chunk == old(chunk) + TextOf(v)
      ensures wait == old(wait) && Posted == old(Posted)
    {
      match WriteRow(v)
      case Some(line) =>
        RowsTextAppend(Rows, v.fields);
        chunk := chunk + line;
        Rows := Rows + [v.fields];
      case None =>
    }

    /** `tell`: the position in the buffer, which is the length of what has
        been written since the last reset. */
    method Tell() returns (n: nat)
      ensures n == |chunk|
    {
      n := |chunk|;
    }

    /** `flush`: take the buffer's contents, reset the buffer before sending,
        then POST the contents once. The batch is dropped whatever the
        outcome; the result says whether the status was below 400. */
    method Flush(outcome: PostOutcome) returns (ok: bool)
      requires Valid()
      modifies this
      ensures Valid() && Rows == [] && chunk == ""
      ensures Posted == old(Posted) + [old(chunk)]
      ensures !wait
      ensures ok == Accepted(outcome)
    {
      wait := true;
      var data := chunk;
      Reset();
      ok := false;
      Posted := Posted + [data];
      match outcome
      case Response(status) =>
        ok := status < 400;
        wait := false;
      case Failure =>
        wait := false;
    }
  }
}
