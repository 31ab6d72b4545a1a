/** The rows the stream consumer writes with
    `csv.writer(buf, delimiter=',', quotechar='"', quoting=csv.QUOTE_NONNUMERIC)`
    (polarity.py:107): every string field is quoted, with each embedded quote
    doubled, numbers are written bare, fields are separated by commas and
    every row ends with the writer's default terminator "\r\n". A reader in
    the manner of section 2 of RFC 4180 is the partner of the writer: it
    recovers every field of every row, and tells quoted fields (strings) from
    bare ones (numbers). */
module Csv {
  import opened Optional
  import opened Seqs

  /** A field value of a row. `Decimal4` is a float that went through
      `round(x, 4)`, held exactly as a whole number of 0.0001 units. */
  datatype Field = Int(i: int) | Decimal4(units: int) | Str(s: string)

  /** What `writerow` is given: a sequence of fields, or a value that is not
      one, for which the writer raises and writes nothing. */
  datatype Value = Row(fields: seq<Field>) | NotARow

  /** A field as a reader sees it: quoted text or bare text. */
  datatype Cell = Quoted(text: string) | Bare(text: string)

  // ---------------------------------------------------------------------
  // Number rendering: str() of an int, repr() of a rounded float
  // ---------------------------------------------------------------------

  function Digit(d: nat): (c: char)
    requires d < 10
    ensures '0' <= c <= '9'
  {
    "0123456789"[d]
  }

  /** Decimal digits of a natural number, without leading zeros. */
  function NatText(n: nat): (r: string)
    ensures r != [] && forall i :: 0 <= i < |r| ==> '0' <= r[i] <= '9'
  {
    if n < 10 then [Digit(n)] else NatText(n / 10) + [Digit(n % 10)]
  }

  /** `str(i)` of a Python int. */
  function IntText(i: int): string
  {
    if i < 0 then "-" + NatText(-i) else NatText(i)
  }

  /** The digits of a fraction below 1 given in 0.0001 units, trailing zeros
      dropped but at least one digit kept. */
  function FractionText(f: nat): (r: string)
    requires f < 10000
    ensures 1 <= |r| <= 4
  {
    var ds := [Digit(f / 1000), Digit(f / 100 % 10), Digit(f / 10 % 10), Digit(f % 10)];
    if f % 1000 == 0 then ds[..1]
    else if f % 100 == 0 then ds[..2]
    else if f % 10 == 0 then ds[..3]
    else ds
  }

  /** `repr()` of a float holding `units / 10000`: its shortest round-trip
      form, which for such a value is the decimal with at most four
      fraction digits. */
  function Decimal4Text(units: int): string
  {
    var a := if units < 0 then -units else units;
    (if units < 0 then "-" else "") + NatText(a / 10000) + "." + FractionText(a % 10000)
  }

  /** The characters a number is written with: none of them is a comma, a
      quote or a line break, so a bare field never needs quoting. */
  predicate IsNumberChar(c: char) {
    '0' <= c <= '9' || c == '-' || c == '.'
  }

  predicate IsNumberText(t: string) {
    forall i :: 0 <= i < |t| ==> IsNumberChar(t[i])
  }

  /** A number field is written bare: non-empty, with no comma, quote or
      line break in it. */
  lemma NumberFieldText(f: Field)
    requires !f.Str?
    ensures FieldText(f) != [] && IsNumberText(FieldText(f))
  {
    match f
    case Int(i) => IntTextIsNumber(i);
    case Decimal4(u) => Decimal4TextIsNumber(u);
  }

  lemma IntTextIsNumber(i: int)
    ensures IsNumberText(IntText(i)) && IntText(i) != []
  {
    var digits := NatText(if i < 0 then -i else i);
    var sign := if i < 0 then "-" else "";
    NumberTextAppend(sign, digits);
    assert IntText(i) == sign + digits;
  }

  lemma Decimal4TextIsNumber(units: int)
    ensures IsNumberText(Decimal4Text(units)) && Decimal4Text(units) != []
  {
    var a := if units < 0 then -units else units;
    var sign := if units < 0 then "-" else "";
    var whole, frac := NatText(a / 10000), FractionText(a % 10000);
    assert IsNumberText(frac) by {
      assert forall k :: 0 <= k < |frac| ==> '0' <= frac[k] <= '9';
    }
    NumberTextAppend(sign, whole);
    NumberTextAppend(sign + whole, ".");
    NumberTextAppend(sign + whole + ".", frac);
    assert Decimal4Text(units) == sign + whole + "." + frac;
  }

  lemma NumberTextAppend(a: string, b: string)
    requires IsNumberText(a) && IsNumberText(b)
    ensures IsNumberText(a + b)
  {
    assert forall k :: 0 <= k < |b| ==> (a + b)[|a| + k] == b[k];
  }

  // ---------------------------------------------------------------------
  // The writer
  // ---------------------------------------------------------------------

  /** A string between quotes, each embedded quote doubled. */
  function Quote(s: string): string
  {
    "\"" + Escape(s) + "\""
  }

  function Escape(s: string): string
  {
    if s == [] then "" else (if s[0] == '"' then "\"\"" else [s[0]]) + Escape(s[1..])
  }

  /** One field under QUOTE_NONNUMERIC. */
  function FieldText(f: Field): string
  {
    match f
    case Int(i) => IntText(i)
    case Decimal4(u) => Decimal4Text(u)
    case Str(s) => Quote(s)
  }

  /** The fields, comma-separated. */
  function FieldsText(fs: seq<Field>): string
  {
    if fs == [] then ""
    else if |fs| == 1 then FieldText(fs[0])
    else FieldText(fs[0]) + "," + FieldsText(fs[1..])
  }

  /** What `writerow(fields)` writes. */
  function RowText(fs: seq<Field>): string
  {
    FieldsText(fs) + "\r\n"
  }

  /** What `writerow(v)` writes to the buffer: `None` when it raises. */
  function WriteRow(v: Value): (r: Option<string>)
    ensures r.Some? <==> v.Row?
  {
    match v
    case Row(fs) => Some(RowText(fs))
    case NotARow => None
  }

  /** The rows, one after the other, as a run of `writerow` calls leaves
      them in the buffer. */
  function RowsText(rows: seq<seq<Field>>): string
  {
    if rows == [] then "" else RowText(rows[0]) + RowsText(rows[1..])
  }

  lemma {:induction false} RowsTextAppend(rows: seq<seq<Field>>, fs: seq<Field>)
    ensures RowsText(rows + [fs]) == RowsText(rows) + RowText(fs)
  {
    if rows == [] {
      assert rows + [fs] == [fs];
    } else {
      assert (rows + [fs])[1..] == rows[1..] + [fs];
      RowsTextAppend(rows[1..], fs);
    }
  }

  /** A rounded float is written as `repr` writes it: shortest form, no
      trailing zeros beyond the first fraction digit. */
  lemma Decimal4TextExamples()
    ensures Decimal4Text(2500) == "0.25"
  {
    assert NatText(0) == "0";
    assert FractionText(2500) == "25";
  }

  lemma Decimal4TextNegativeExample()
    ensures Decimal4Text(-500) == "-0.05"
  {
    assert NatText(0) == "0";
    assert FractionText(500) == "05";
  }

  lemma Decimal4TextWholeExamples()
    ensures Decimal4Text(10000) == "1.0" && Decimal4Text(0) == "0.0"
  {
  }

  /** An int is written as `str` writes it; a string is quoted with its
      embedded quotes doubled. */
  lemma IntTextAndQuoteExamples()
    ensures IntText(-42) == "-42" && Quote("a\"b") == "\"a\"\"b\""
  {
  }

  // ---------------------------------------------------------------------
  // The reader (section 2 of RFC 4180)
  // ---------------------------------------------------------------------

  /** The rest of a quoted field after its opening quote: the text up to the
      lone closing quote, with doubled quotes read as one, and what follows
      the closing quote. */
  function ReadQuoted(s: string): (r: Option<(string, string)>)
    ensures r.Some? ==> |r.value.1| < |s|
    decreases |s|
  {
    if s == [] then None
    else if s[0] == '"' then
      if |s| > 1 && s[1] == '"' then
        match ReadQuoted(s[2..])
        case None => None
        case Some((t, rest)) => Some(("\"" + t, rest))
      else Some(("", s[1..]))
    else
      match ReadQuoted(s[1..])
      case None => None
      case Some((t, rest)) => Some(([s[0]] + t, rest))
  }

  /** Length of a bare field: up to the next comma or line break. */
  function BareRun(s: string): (n: nat)
    ensures n <= |s|
  {
    if s == [] || s[0] == ',' || s[0] == '\r' || s[0] == '\n' then 0 else 1 + BareRun(s[1..])
  }

  /** One field at the start of `s`, and what follows it. */
  function ReadField(s: string): (r: Option<(Cell, string)>)
    ensures r.Some? ==> |r.value.1| <= |s|
  {
    if s != [] && s[0] == '"' then
      match ReadQuoted(s[1..])
      case None => None
      case Some((t, rest)) => Some((Quoted(t), rest))
    else
      var n := BareRun(s);
      Some((Bare(s[..n]), s[n..]))
  }

  /** The fields of one record up to and including its "\r\n", and what
      follows the record. */
  function ReadRecord(s: string): (r: Option<(seq<Cell>, string)>)
    ensures r.Some? ==> |r.value.1| < |s|
    decreases |s|
  {
    match ReadField(s)
    case None => None
    case Some((c, rest)) =>
      if |rest| >= 2 && rest[0] == '\r' && rest[1] == '\n' then Some(([c], rest[2..]))
      else if rest != [] && rest[0] == ',' then
        match ReadRecord(rest[1..])
        case None => None
        case Some((cs, tail)) => Some(([c] + cs, tail))
      else None
  }

  /** One line of a payload: a blank line is an empty record, as Python's
      reader gives it; otherwise the record's fields. */
  function ReadLine(s: string): (r: Option<(seq<Cell>, string)>)
    ensures r.Some? ==> |r.value.1| < |s|
  {
    if |s| >= 2 && s[0] == '\r' && s[1] == '\n' then Some(([], s[2..]))
    else ReadRecord(s)
  }

  /** All records of a payload. */
  function ReadRecords(s: string): (r: Option<seq<seq<Cell>>>)
    decreases |s|
  {
    if s == [] then Some([])
    else
      match ReadLine(s)
      case None => None
      case Some((cs, rest)) =>
        match ReadRecords(rest)
        case None => None
        case Some(more) => Some([cs] + more)
  }

  /** How a reader sees a field the writer wrote. */
  function CellOf(f: Field): Cell
  {
    match f
    case Int(i) => Bare(IntText(i))
    case Decimal4(u) => Bare(Decimal4Text(u))
    case Str(s) => Quoted(s)
  }

  function CellsOf(fs: seq<Field>): (cs: seq<Cell>)
    ensures |cs| == |fs|
    ensures forall i :: 0 <= i < |fs| ==> cs[i] == CellOf(fs[i])
  {
    if fs == [] then [] else [CellOf(fs[0])] + CellsOf(fs[1..])
  }

  function RecordsOf(rows: seq<seq<Field>>): (rs: seq<seq<Cell>>)
    ensures |rs| == |rows|
    ensures forall i :: 0 <= i < |rows| ==> rs[i] == CellsOf(rows[i])
  {
    if rows == [] then [] else [CellsOf(rows[0])] + RecordsOf(rows[1..])
  }

  // ---------------------------------------------------------------------
  // Round trip
  // ---------------------------------------------------------------------

  /** The reader undoes the doubling of quotes up to the closing quote. */
  lemma {:induction false} ReadQuotedEscape(s: string, rest: string)
    requires rest == [] || rest[0] != '"'
    ensures ReadQuoted(Escape(s) + "\"" + rest) == Some((s, rest))
  {
    if s == [] {
      assert Escape(s) + "\"" + rest == "\"" + rest;
      assert ("\"" + rest)[1..] == rest;
    } else {
      ReadQuotedEscape(s[1..], rest);
      var tail := Escape(s[1..]) + "\"" + rest;
      assert s == [s[0]] + s[1..];
      if s[0] == '"' {
        assert Escape(s) + "\"" + rest == "\"\"" + tail;
        assert ("\"\"" + tail)[2..] == tail;
      } else {
        assert Escape(s) + "\"" + rest == [s[0]] + tail;
        assert ([s[0]] + tail)[1..] == tail;
      }
    }
  }

  lemma {:induction false} BareRunOfNumber(t: string, rest: string)
    requires IsNumberText(t)
    requires rest == [] || rest[0] == ',' || rest[0] == '\r'
    ensures BareRun(t + rest) == |t|
  {
    if t != [] {
      assert (t + rest)[1..] == t[1..] + rest;
      BareRunOfNumber(t[1..], rest);
    } else {
      assert t + rest == rest;
    }
  }

  /** The reader takes back one field the writer wrote, when a comma or a
      line break follows it. */
  lemma ReadFieldText(f: Field, rest: string)
    requires rest != [] && (rest[0] == ',' || rest[0] == '\r')
    ensures ReadField(FieldText(f) + rest) == Some((CellOf(f), rest))
  {
    match f
    case Str(x) => ReadFieldQuoted(x, rest);
    case Int(i) =>
      NumberFieldText(f);
      ReadFieldBare(IntText(i), rest);
    case Decimal4(u) =>
      NumberFieldText(f);
      ReadFieldBare(Decimal4Text(u), rest);
  }

  lemma ReadFieldQuoted(x: string, rest: string)
    requires rest == [] || rest[0] != '"'
    ensures ReadField(Quote(x) + rest) == Some((Quoted(x), rest))
  {
    var s := Quote(x) + rest;
    ReadQuotedEscape(x, rest);
    assert s == "\"" + (Escape(x) + "\"" + rest);
    assert s[1..] == Escape(x) + "\"" + rest;
  }

  lemma ReadFieldBare(t: string, rest: string)
    requires t != [] && IsNumberText(t)
    requires rest != [] && (rest[0] == ',' || rest[0] == '\r')
    ensures ReadField(t + rest) == Some((Bare(t), rest))
  {
    var s := t + rest;
    BareRunOfNumber(t, rest);
    assert s[0] == t[0];
    assert s[..|t|] == t && s[|t|..] == rest;
  }

  /** The reader takes back every field of a non-empty row, in order, and
      stops right after the row's "\r\n". */
  lemma {:induction false} ReadRecordRowText(fs: seq<Field>, rest: string)
    requires fs != []
    ensures ReadRecord(RowText(fs) + rest) == Some((CellsOf(fs), rest))
  {
    if |fs| == 1 {
      assert RowText(fs) + rest == FieldText(fs[0]) + ("\r\n" + rest);
      ReadFieldText(fs[0], "\r\n" + rest);
      ReadRecordLast(FieldText(fs[0]) + ("\r\n" + rest), CellOf(fs[0]), rest);
      assert CellsOf(fs) == [CellOf(fs[0])];
    } else {
      var tail := RowText(fs[1..]) + rest;
      RowTextCons(fs, rest);
      ReadFieldText(fs[0], "," + tail);
      ReadRecordRowText(fs[1..], rest);
      ReadRecordNext(FieldText(fs[0]) + ("," + tail), CellOf(fs[0]), tail);
    }
  }

  lemma RowTextCons(fs: seq<Field>, rest: string)
    requires |fs| > 1
    ensures RowText(fs) + rest == FieldText(fs[0]) + ("," + (RowText(fs[1..]) + rest))
  {
    var a, b := FieldText(fs[0]), FieldsText(fs[1..]);
    assert FieldsText(fs) == a + "," + b;
    Assoc(a, ",", (b + "\r\n") + rest);
    Assoc(a + ",", b + "\r\n", rest);
    Assoc(a + ",", b, "\r\n");
  }

  lemma ReadRecordLast(s: string, c: Cell, rest: string)
    requires ReadField(s) == Some((c, "\r\n" + rest))
    ensures ReadRecord(s) == Some(([c], rest))
  {
    assert ("\r\n" + rest)[2..] == rest;
  }

  lemma ReadRecordNext(s: string, c: Cell, tail: string)
    requires ReadField(s) == Some((c, "," + tail))
    requires ReadRecord(tail).Some?
    ensures ReadRecord(s) == Some(([c] + ReadRecord(tail).value.0, ReadRecord(tail).value.1))
  {
    assert ("," + tail)[1..] == tail;
  }

  /** The reader takes back every written line, the `\r\n` of an empty row
      included, as the row's cells. */
  lemma ReadLineRowText(fs: seq<Field>, rest: string)
    ensures ReadLine(RowText(fs) + rest) == Some((CellsOf(fs), rest))
  {
    var s := RowText(fs) + rest;
    if fs == [] {
      assert s == "\r\n" + rest;
      assert s[2..] == rest;
    } else {
      ReadRecordRowText(fs, rest);
      RowTextStart(fs, rest);
    }
  }

  /** A written non-empty row starts with its first field, which is never a
      line break. */
  lemma RowTextStart(fs: seq<Field>, rest: string)
    requires fs != []
    ensures (RowText(fs) + rest)[0] != '\r'
  {
    var t := FieldText(fs[0]);
    if fs[0].Str? {
      assert t[0] == '"';
    } else {
      NumberFieldText(fs[0]);
      assert IsNumberChar(t[0]);
    }
    assert (RowText(fs) + rest)[0] == t[0];
  }

  /** A payload of written rows reads back as exactly those rows, in order:
      the writer's output is unambiguous. */
  lemma {:induction false} ReadRecordsRowsText(rows: seq<seq<Field>>)
    ensures ReadRecords(RowsText(rows)) == Some(RecordsOf(rows))
  {
    if rows != [] {
      ReadLineRowText(rows[0], RowsText(rows[1..]));
      ReadRecordsRowsText(rows[1..]);
      assert RowText(rows[0]) != [];
    }
  }
}
