# Tweet polarity stream — a Dafny model

`polarity.py` listens to a Twitter stream and scores each tweet's sentiment
with TextBlob. It sends the records to a Tinybird data source in
micro-batches. This project models and proves two parts of it.

- **The text normaliser.** The expression
  `" ".join(re.sub("([^0-9A-Za-z \t])|(\w+:\/\/\S+)", "", s).split())` is
  used by `parse_tweets` and by `on_data`.
  - Module `Text` models the substitution as a left-to-right scanner
    (`Strip`). At each position the first alternative is tried first: it
    deletes one character outside `[0-9A-Za-z \t]`. Otherwise the URL
    alternative deletes a maximal word run followed by `://` and a
    non-space tail.
  - The split and join are `Words` and `Join`, and `Clean` composes the
    three steps.
  - Module `Tweets` models `parse_tweets` as a loop (`ParseTweets`).
  - `Tweets.BuildRecord` models how `on_data` builds its five-field record:
    `[id, date, cleaned text, search term, polarity]`.
- **The micro-batch buffer.**
  - Module `Csv` models the rows that `csv.writer` with `QUOTE_NONNUMERIC`
    writes into the buffer. Its partner is a reader in the manner of
    section 2 of RFC 4180, and a lemma proves that the reader recovers
    every field of every row.
  - Module `Sink` models `TinybirdApiSink` as a class. It has the buffer,
    the `wait` flag, a ghost list of the rows written, and a ghost log of
    the POST bodies sent.
  - Module `Listener` models the `append`/`flush` state machine of
    `MyStreamListener` as a class, with three flush triggers:
    - the record count;
    - the buffer size, checked after the row is written;
    - the timer.
  - The timer firing is an explicit call, `TimerFires`.
  - The clock is a `now` parameter.
  - The outcome of each POST is a parameter.
  - Module `Scenarios` holds client code that walks through the triggers
    using only the contracts.

Integers are unbounded, as in Python. `\w` is taken as ASCII
`[A-Za-z0-9_]`. `\s` and `str.split()` use Python's exact list of
whitespace characters. A polarity is the float `round(x, 4)`, held exactly
as a whole number of 0.0001 units (`Csv.Field.Decimal4`). Its `repr` is
rendered as Python renders it: `0.25`, `-0.05`, `1.0`.

Behaviours of the code a reader might not expect, which the model follows:

- The substitution keeps only space and tab. A newline or any other
  whitespace is deleted, not turned into a separator, so the words on
  either side of it merge (`Text.CleanMergesLines`).
- The streaming sink's `reset` writes no header row. Only `to_tinybird`
  writes one.
- `tell()` on the `StringIO` buffer counts characters, not bytes.
  `max_wait_bytes` is therefore compared with a character count.
- When scoring raises, the polarity column holds the int `0`, written as
  `0`, not the float `0.0`.
- The writer's exceptions are swallowed, but the record is still counted.
  `records` can therefore exceed the number of rows in the buffer.

## Model

| member | source | states |
|---|---|---|
| Text.WordRun | polarity.py:50 | `\w+` takes the longest run of word characters: every character before the end of the run is a word character, and the next one is not |
| Text.NonSpaceRun | polarity.py:50 | `\S+` takes the longest run of non-whitespace characters, up to the next whitespace character |
| Text.UrlMatch | polarity.py:50 | a non-empty match of the URL alternative is a word run, then `://`, then a non-space tail, and it ends at whitespace or at the end of the text |
| Text.UrlMatchLongest | polarity.py:50 | the URL alternative is greedy: no longer URL-shaped prefix exists than the one it deletes |
| Text.Strip | polarity.py:50 | the substitution leaves only characters of `[0-9A-Za-z \t]` and never lengthens the text |
| Text.StripWithoutColon | polarity.py:50 | on text with no `:`, the substitution is exactly the per-character filter that keeps `[0-9A-Za-z \t]`, so nothing is inserted in place of a deleted character |
| Text.StripOfKept | polarity.py:50 | text made only of allowed characters passes the substitution unchanged |
| Text.StripKeptPrefix | polarity.py:50 | an allowed prefix ending in a non-word character is kept as is, and the scan goes on from the end of it |
| Text.StripDropsUrl | polarity.py:50 | a `word://nonspace` token starting with a letter or digit and followed by whitespace or the end is deleted whole, trailing punctuation included |
| Text.IsSpace | polarity.py:50 | whitespace is Python's exact list of `isspace` characters, shared by `\s` and by `str.split()` |
| Text.Words | polarity.py:50 | `split()` yields non-empty pieces free of whitespace, and, when the input has only allowed characters, so has every piece |
| Text.WordsOfWord | polarity.py:50 | a word followed by whitespace or the end is split off as the first piece |
| Text.WordsSkipSpaces | polarity.py:50 | leading whitespace yields no piece |
| Text.WordsSplitAtSpace | polarity.py:50 | splitting distributes over a concatenation at a whitespace boundary |
| Text.WordsOfJoin | polarity.py:50 | `split()` undoes `" ".join` of whitespace-free words |
| Text.Join | polarity.py:50 | `" ".join(ws)`: the pieces in order, one space between consecutive pieces, nothing for an empty list |
| Text.JoinIsClean | polarity.py:50 | joining allowed words with single spaces gives clean text |
| Text.JoinWordsOfClean | polarity.py:50 | on clean text, `" ".join(t.split())` gives back `t` |
| Text.JoinAppend | polarity.py:50 | joining two non-empty word lists puts exactly one space between them |
| Text.Clean | polarity.py:50 | cleaned text contains only ASCII letters, digits and single spaces, with no space at either end and no tab |
| Text.CleanOfClean | polarity.py:50 | cleaning clean text returns it unchanged |
| Text.CleanIdempotent | polarity.py:194 | cleaning twice is the same as cleaning once |
| Text.CleanKeepsWords | polarity.py:50 | cleaning keeps exactly the words left by the substitution, in order |
| Text.CleanDropsUrl | polarity.py:50 | between clean text, a URL token starting with a letter or digit, with the spaces after it, is removed and the words around it end up one space apart |
| Text.CleanUrlExample | polarity.py:50 | the tweet `"Check this out http://x.co/abc!!  now"` cleans to `"Check this out now"`: the URL goes with its punctuation and the spaces around it collapse to one |
| Text.CleanMergesLines | polarity.py:50 | a newline between two alphanumeric words is deleted, not treated as a separator, and the words merge |
| Text.UrlShapedOf | polarity.py:50 | a word, `://` and a whitespace-free piece form a token the URL alternative matches whole |
| Text.UnderscoreBeforeUrl | polarity.py:50 | the first alternative wins at each position: in `_://x` the `_` is deleted alone, so the URL alternative never sees `_://x`, and only `x` is left |
| Text.KeepAllowedConcat | polarity.py:50 | the reference filter distributes over concatenation |
| Text.KeepAllowedOfKept | polarity.py:50 | the reference filter keeps allowed text unchanged |
| Csv.NatText | polarity.py:107 | a natural number is written as a non-empty run of decimal digits |
| Csv.IntText | polarity.py:107 | an int is written as `str` writes it: an optional `-` and its decimal digits |
| Csv.Decimal4Text | polarity.py:61 | a rounded float is written as `repr` writes it: sign, whole part, `.`, and one to four fraction digits with trailing zeros dropped |
| Csv.NumberFieldText | polarity.py:107 | an int or a rounded float field is written non-empty, with only digits, `-` and `.`, so it never needs quoting under QUOTE_NONNUMERIC |
| Csv.Decimal4TextExamples | polarity.py:61 | a rounded float below one is written as `repr` writes it: 0.25 |
| Csv.Decimal4TextNegativeExample | polarity.py:61 | a negative rounded float keeps its sign and its leading zeros: -0.05 |
| Csv.Decimal4TextWholeExamples | polarity.py:61 | whole rounded floats keep one fraction digit: 1.0 and 0.0 |
| Csv.IntTextAndQuoteExamples | polarity.py:107 | an int is written bare (`-42`); a string is quoted with each embedded quote doubled |
| Csv.Escape | polarity.py:107 | each quote inside a string is doubled, every other character is kept |
| Csv.Quote | polarity.py:107 | a string field is written between quotes, with its quotes doubled |
| Csv.FieldText | polarity.py:107 | under QUOTE_NONNUMERIC, ints and floats are written bare and strings quoted |
| Csv.RowText | polarity.py:107 | a row is its fields separated by commas, ended by the default terminator `\r\n` |
| Csv.WriteRow | polarity.py:111 | `writerow` writes a line exactly when it is given a row, and raises, writing nothing, otherwise |
| Csv.RowsTextAppend | polarity.py:111 | writing one more row appends its line after the rows already in the buffer |
| Csv.CellsOf | polarity.py:107 | a reader sees one cell per field, in order |
| Csv.RecordsOf | polarity.py:107 | a reader sees one record per row, in order |
| Csv.ReadQuotedEscape | polarity.py:107 | reading a quoted field undoes the doubling of quotes |
| Csv.BareRunOfNumber | polarity.py:107 | a bare number field ends at the following comma or line break |
| Csv.ReadFieldQuoted | polarity.py:107 | a quoted string field reads back as that string |
| Csv.ReadFieldBare | polarity.py:107 | a bare number field reads back as that text |
| Csv.ReadFieldText | polarity.py:107 | every field the writer writes reads back as itself, and quoted exactly when it is a string |
| Csv.ReadRecordRowText | polarity.py:111 | every non-empty written row reads back as its fields, in order, up to its `\r\n` |
| Csv.ReadLineRowText | polarity.py:111 | every written line reads back as its row's cells, the bare `\r\n` of an empty row as an empty record, as Python's reader gives it |
| Csv.ReadRecordsRowsText | polarity.py:111 | a buffer of written rows reads back as exactly those rows, in order |
| Tweets.StatusRow | polarity.py:47-51 | a `parse_tweets` row has three fields, and its text field is clean |
| Tweets.ParseTweets | polarity.py:44-52 | `parse_tweets` gives one row per status, in order, each `[id, str(created_at), cleaned text]` |
| Tweets.PolarityField | polarity.py:195-198 | when scoring raises, the polarity column is the int 0, written `0`; otherwise it is the rounded score |
| Tweets.BuildRecord | polarity.py:190-200 | skipped exactly when `created_at`, `id` or `text` is missing; raises exactly when the date cannot be formatted; otherwise the record is `[id, formatted date, cleaned text, search term, polarity]`, with polarity the int 0 when scoring raised |
| Sink.Written | polarity.py:109-113 | a run of `writerow` calls writes at most one row per value |
| Sink.WrittenAppend | polarity.py:109-113 | one more `append` adds its row when the writer accepts the value and nothing when it raises |
| Sink.Accepted | polarity.py:132 | a POST succeeded when a response came back with a status below 400; an exception is a failure |
| Sink.TextOf | polarity.py:109-113 | what one `append` adds to the buffer: the row's line, or nothing when the writer raises |
| Sink.TinybirdApiSink.constructor | polarity.py:91-103 | a new sink has an empty buffer, no flush in progress and nothing sent |
| Sink.TinybirdApiSink.Reset | polarity.py:105-107 | `reset` empties the buffer and writes no header row |
| Sink.TinybirdApiSink.Append | polarity.py:109-113 | `append` adds the value's row to the buffer, or leaves the buffer as it was when the writer raises; the buffer always holds exactly the rows written since the last reset |
| Sink.TinybirdApiSink.Tell | polarity.py:115-116 | `tell` is the length of what has been written since the last reset |
| Sink.TinybirdApiSink.Flush | polarity.py:118-138 | `flush` sends the whole buffer in one POST and empties the buffer whatever the outcome; `wait` is false on return; the result is true iff the status is below 400, and false on an exception |
| Listener.MyStreamListener.constructor | polarity.py:143-158 | a new listener has no records, no timer and an empty sink |
| Listener.MyStreamListener.Flush | polarity.py:174-183 | `flush` always clears the timer and its start; with no records it makes no POST; otherwise it sends the pending rows, in order, in one POST and zeroes the counter |
| Listener.MyStreamListener.Append | polarity.py:160-172 | the row is written and counted; below both limits it stays buffered with a timer armed, started now unless one was already armed, which keeps its start; at a limit, the batch including this row is sent and the state is cleared; with positive thresholds, records and `tell()` are below their limits after every call |
| Listener.MyStreamListener.TimerFires | polarity.py:168 | the timer fires only while records are pending and `max_wait_seconds` after the first of them arrived; it sends the buffer in one POST and clears the state |
| Listener.MyStreamListener.OnData | polarity.py:185-200 | `on_data` appends exactly the record `BuildRecord` gives, with the new state `append` gives: counter, arrival times, buffer, the armed timer keeping its start, or a flush of the batch at a limit; a skipped or raising message leaves the listener and the sink unchanged |

## Left out

- The tweepy client, authentication, `tweepy.Stream`, `connect()` and the endless reconnect loop (polarity.py:30-32, 203-215) are left out. They are network calls and do not terminate.
- The `threading.Timer` thread (polarity.py:168-170) is left out because it is concurrency. Its firing is the sequential call `TimerFires`, and `time.monotonic()` is the `now` parameter. Races between the timer thread and `append` are not modelled.
- The busy-wait `while self.sink.wait: sleep` in `on_data` (polarity.py:186-188) is left out because it only matters under concurrency. In the sequential model `wait` is always false between calls, so the loop never runs.
- The HTTP session, its `Retry` policy and the POST itself (polarity.py:97-101, 122-129) are left out because they are library and network calls. The outcome after retries is the `PostOutcome` parameter, and the body sent is recorded in the ghost log `Posted`.
- TextBlob scoring and `round(x, 4)` (polarity.py:55-64) are left out because they are a foreign library and floating point. The score is a partial function giving ten-thousandths, with `None` for "raised". `-0.0` cannot be represented, so the model writes it as `0.0`.
- `json.loads`, `parsedate_to_datetime` and `strftime` (polarity.py:190, 193-194) are left out because they are library calls. The message arrives as its three optional keys, and the date formatting is a partial function. A `text` value that is not a string is not modelled.
- `super().on_data` (polarity.py:189) is left out because it is tweepy's own code, and `print` output is left out because it is I/O.
- Environment configuration and the module-level client setup (polarity.py:18-32) are left out because they read the process environment.
- `to_tinybird` (polarity.py:67-87), with its header row and its exception on a status of 400 or more, is left out. The stream listener does not call it.
- avatar.py is not part of this model. It is a one-shot script of API calls and image processing.
- Text.IsWordChar: Python's `\w` also matches non-ASCII letters and digits. The model takes the ASCII class. Such characters are deleted by the first alternative anyway, but a URL whose scheme part contains them may be scanned differently.
- Csv.Decimal4Text: rendering is modelled only for floats that are exact multiples of 0.0001. Python's shortest `repr` of other floats is not modelled, and neither is the exponent form `repr` switches to from 1e16 upwards; the score is not bounded to TextBlob's range of -1 to 1.
- The optional `name` and `api` arguments of `MyStreamListener.__init__` (polarity.py:143) are left out because they only name the timer thread and hold the API client. The default thresholds (polarity.py:143-145) are the constants `Listener.DefaultMaxWaitSeconds`, `DefaultMaxWaitRecords` and `DefaultMaxWaitBytes`; the constructor itself takes all three.
- A message whose `id` is present but null or not an int is not modelled: `Tweets.Event` holds `id` as an optional int, so the row the writer would emit for such a value cannot be represented.
