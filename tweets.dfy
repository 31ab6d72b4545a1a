/** Shaping statuses into rows: `parse_tweets` (polarity.py:44-52), which
    cleans a list of statuses in a loop, and the record construction of
    `MyStreamListener.on_data` (polarity.py:185-200). The JSON decoding, the
    date parsing and formatting and the sentiment scorer are collaborators
    outside the model: the event arrives decoded into its optional keys, and
    the date formatter and the scorer are passed in as partial functions,
    `None` standing for "raised". */
module Tweets {
  import opened Optional
  import opened Text
  import opened Csv

  /** The attributes `parse_tweets` reads from a status: `id`,
      `str(created_at)` and `text`. */
  datatype Status = Status(id: int, createdAt: string, text: string)

  /** The row `parse_tweets` builds for one status. */
  function StatusRow(t: Status): (r: seq<Field>)
    ensures |r| == 3 && r[2].Str? && IsClean(r[2].s)
  {
    [Int(t.id), Str(t.createdAt), Str(Clean(t.text))]
  }

  /** `parse_tweets`: one row per status, in order. */
  method ParseTweets(tweets: seq<Status>) returns (result: seq<seq<Field>>)
    ensures |result| == |tweets|
    ensures forall i :: 0 <= i < |tweets| ==> result[i] == StatusRow(tweets[i])
  {
    result := [];
    for k := 0 to |tweets|
      invariant |result| == k
      invariant forall i :: 0 <= i < k ==> result[i] == StatusRow(tweets[i])
    {
      var t := tweets[k];
      var tt := Clean(t.text);
      result := result + [[Int(t.id), Str(t.createdAt), Str(tt)]];
    }
  }

  /** A decoded stream message: the three keys `on_data` needs, each of which
      may be missing. */
  datatype Event = Event(id: Option<int>, createdAt: Option<string>, text: Option<string>)

  /** What `on_data` does with one message: skip it, raise out of it (the
      date could not be parsed), or append one record. */
  datatype Outcome = Skipped | Raised | Record(row: seq<Field>)

  /** The polarity column: the rounded score, or the int 0 when scoring
      raised. */
  function PolarityField(score: Option<int>): (f: Field)
    ensures score.None? ==> f == Int(0) && FieldText(f) == "0"
    ensures score.Some? ==> f == Decimal4(score.value)
  {
    match score
    case None => Int(0)
    case Some(u) => Decimal4(u)
  }

  /** The record construction of `on_data` (polarity.py:190-200).
      `formatDate` stands for
      `parsedate_to_datetime(date).strftime("%Y-%m-%d %H:%M:%S")` and `score`
      for `enrich_polarity`, in units of 0.0001. */
  function BuildRecord(ev: Event, searchTerm: string,
                       formatDate: string -> Option<string>,
                       score: string -> Option<int>): (r: Outcome)
    ensures r.Skipped? <==> ev.id.None? || ev.createdAt.None? || ev.text.None?
    ensures r.Raised? <==> !r.Skipped? && formatDate(ev.createdAt.value).None?
    ensures r.Record? ==>
      && |r.row| == 5
      && r.row[0] == Int(ev.id.value)
      && r.row[1] == Str(formatDate(ev.createdAt.value).value)
      && r.row[2] == Str(Clean(ev.text.value)) && IsClean(r.row[2].s)
      && r.row[3] == Str(searchTerm)
      && (score(Clean(ev.text.value)).None? ==> r.row[4] == Int(0))
      && (score(Clean(ev.text.value)).Some? ==> r.row[4] == Decimal4(score(Clean(ev.text.value)).value))
  {
    if ev.createdAt.None? || ev.id.None? || ev.text.None? then Skipped
    else
      match formatDate(ev.createdAt.value)
      case None => Raised
      case Some(date) =>
        var text := Clean(ev.text.value);
        Record([Int(ev.id.value), Str(date), Str(text), Str(searchTerm), PolarityField(score(text))])
  }
}
