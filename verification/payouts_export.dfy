/** The payouts export of the affiliate back office: query validation, the
    CSV text and file name, and the JSON alternative. */
module PayoutsExport {
  import opened Wrappers
  import opened Text
  import AffiliateAuth

  // ------------------------------------------------------------ query

  datatype PayoutStatus = Pending | Approved | Paid | Failed
  datatype Format = Csv | Json

  function StatusText(s: PayoutStatus): string
  {
    match s
    case Pending => "pending"
    case Approved => "approved"
    case Paid => "paid"
    case Failed => "failed"
  }

  /** The `status` enum of the query schema. */
  function ParseStatus(s: string): (r: Option<PayoutStatus>)
    ensures r.Some? ==> StatusText(r.value) == s
    ensures r.None? <==> s !in {"pending", "approved", "paid", "failed"}
  {
    if s == "pending" then Some(Pending)
    else if s == "approved" then Some(Approved)
    else if s == "paid" then Some(Paid)
    else if s == "failed" then Some(Failed)
    else None
  }

  /** The `format` enum of the query schema. */
  function ParseFormat(s: string): Option<Format>
  {
    if s == "csv" then Some(Csv) else if s == "json" then Some(Json) else None
  }

  /** The regular expression `^\d{4}-\d{2}$`. */
  predicate IsMonthYear(s: string)
  {
    |s| == 7 && IsDigit(s[0]) && IsDigit(s[1]) && IsDigit(s[2]) && IsDigit(s[3]) &&
    s[4] == '-' && IsDigit(s[5]) && IsDigit(s[6])
  }

  /** `searchParams.get(name) || fallback`: a missing or empty parameter
      takes the fallback. */
  function OrElse(param: Option<string>, fallback: string): string
  {
    if param.None? || param.value == "" then fallback else param.value
  }

  datatype ExportQuery = ExportQuery(monthYear: string, status: Option<PayoutStatus>, format: Format)

  /** The query schema's `parse`, with `currentMonth` the value of
      `getCurrentMonthYear()`: `None` where it throws. */
  function ParseQuery(monthParam: Option<string>, statusParam: Option<string>, formatParam: Option<string>,
                      currentMonth: string): Option<ExportQuery>
  {
    var month := OrElse(monthParam, currentMonth);
    var statusGiven := statusParam.Some? && statusParam.value != "";
    var format := ParseFormat(OrElse(formatParam, "csv"));
    if !IsMonthYear(month) || format.None? then None
    else if !statusGiven then Some(ExportQuery(month, None, format.value))
    else
      var status := ParseStatus(statusParam.value);
      if status.None? then None else Some(ExportQuery(month, status, format.value))
  }

  /** The query is accepted exactly when the month (or, when none is given,
      the current month) has the form YYYY-MM, the status is absent or one of
      the four, and the format is absent, "csv" or "json"; an absent format
      is CSV and an absent status selects every status. */
  lemma QueryValidation(monthParam: Option<string>, statusParam: Option<string>, formatParam: Option<string>,
                        currentMonth: string)
    ensures var q := ParseQuery(monthParam, statusParam, formatParam, currentMonth);
      (q.Some? <==>
        IsMonthYear(OrElse(monthParam, currentMonth)) &&
        (OrElse(statusParam, "") == "" || OrElse(statusParam, "") in {"pending", "approved", "paid", "failed"}) &&
        OrElse(formatParam, "csv") in {"csv", "json"}) &&
      (q.Some? ==>
        q.value.monthYear == OrElse(monthParam, currentMonth) &&
        (q.value.format == Json <==> OrElse(formatParam, "csv") == "json") &&
        (q.value.status.None? <==> OrElse(statusParam, "") == "") &&
        (q.value.status.Some? ==> StatusText(q.value.status.value) == statusParam.value))
  {
  }

  // ------------------------------------------------------------ fields

  /** A payout row with the affiliate columns the export includes; dates are
      their ISO text. */
  datatype PayoutRow = PayoutRow(
    id: string,
    payoutMonth: string,
    affiliateName: string,
    affiliateEmail: string,
    uniqueSlug: string,
    affiliateTier: string,
    totalCommission: real,
    status: string,
    createdAt: string,
    approvedAt: Option<string>,
    paidAt: Option<string>,
    transactionId: Option<string>,
    notes: Option<string>)

  /** `split('T')[0]`: the text before the first 'T'. */
  function DatePart(iso: string): (r: string)
    ensures 'T' !in r && |r| <= |iso| && r == iso[..|r|]
  {
    if |iso| == 0 || iso[0] == 'T' then "" else [iso[0]] + DatePart(iso[1..])
  }

  /** Of an ISO instant `<date>T<time>` the date is kept. */
  lemma {:induction false} DatePartOfIso(date: string, time: string)
    requires 'T' !in date
    ensures DatePart(date + "T" + time) == date
  {
    if |date| > 0 {
      assert (date + "T" + time)[1..] == date[1..] + "T" + time;
      DatePartOfIso(date[1..], time);
    }
  }

  function OptionalDate(d: Option<string>): string
  {
    if d.Some? then DatePart(d.value) else ""
  }

  function OptionalText(t: Option<string>): string
  {
    if t.Some? then t.value else ""
  }

  function Digit(n: nat): char
    requires n < 10
  {
    (('0' as int) + n) as char
  }

  /** The number of hundredths `toFixed(2)` rounds a non-negative amount
      to: the nearest, the larger on a tie. */
  function RoundedCents(m: real): (n: nat)
    requires m >= 0.0
    ensures n as real - 0.5 <= m * 100.0 < n as real + 0.5
  {
    (m * 100.0 + 0.5).Floor
  }

  /** A number of hundredths written with two decimals. */
  function CentsText(n: nat): string
  {
    Decimal(n / 100) + "." + [Digit((n % 100) / 10), Digit(n % 10)]
  }

  /** The text of `n` hundredths is the whole part in decimal, a point and
      two digits, and it reads back as `n`. */
  lemma CentsTextValue(n: nat)
    ensures var t := CentsText(n);
      |t| >= 4 && t[|t| - 3] == '.' && AllDigits(t[..|t| - 3]) && IsDigit(t[|t| - 2]) && IsDigit(t[|t| - 1]) &&
      DigitsValue(t[..|t| - 3]) * 100 + (t[|t| - 2] as int - '0' as int) * 10 + (t[|t| - 1] as int - '0' as int) == n
  {
    var t := CentsText(n);
    var whole := Decimal(n / 100);
    assert t[..|t| - 3] == whole;
    DigitsValueOfDecimal(n / 100);
  }

  /** `toFixed(2)`: a minus sign for a negative amount, then its magnitude
      rounded to hundredths. */
  function Fixed2(x: real): string
  {
    if x < 0.0 then "-" + CentsText(RoundedCents(-x)) else CentsText(RoundedCents(x))
  }

  /** Amounts in whole cents, as a two-decimal column holds them, are
      written exactly. */
  lemma Fixed2OfCents(x: real, cents: nat)
    requires x * 100.0 == cents as real
    ensures Fixed2(x) == CentsText(cents)
  {
    assert x >= 0.0;
    assert RoundedCents(x) == cents;
  }

  /** The text of an amount has no comma, quote or line break. */
  lemma Fixed2Plain(x: real)
    ensures ',' !in Fixed2(x) && '"' !in Fixed2(x) && '\n' !in Fixed2(x)
  {
    var n := RoundedCents(if x < 0.0 then -x else x);
    var d := Decimal(n / 100);
    assert forall i :: 0 <= i < |d| ==> IsDigit(d[i]);
  }

  const CSV_HEADERS: seq<string> := [
    "Payout ID", "Affiliate Name", "Affiliate Email", "Affiliate Code", "Tier", "Commission Amount",
    "Status", "Created Date", "Approved Date", "Paid Date", "Transaction ID", "Notes"]

  /** The twelve fields of one payout, in header order. */
  function RowFields(p: PayoutRow): (r: seq<string>)
    ensures |r| == 12
  {
    [p.id, p.affiliateName, p.affiliateEmail, p.uniqueSlug, p.affiliateTier, Fixed2(p.totalCommission),
     p.status, DatePart(p.createdAt), OptionalDate(p.approvedAt), OptionalDate(p.paidAt),
     OptionalText(p.transactionId), OptionalText(p.notes)]
  }

  /** Missing dates, transaction id and notes are empty fields; dates are
      the day part of their ISO text. */
  lemma RowFieldsOptional(p: PayoutRow)
    ensures p.approvedAt.None? ==> RowFields(p)[8] == ""
    ensures p.paidAt.None? ==> RowFields(p)[9] == ""
    ensures p.transactionId.None? ==> RowFields(p)[10] == ""
    ensures p.notes.None? ==> RowFields(p)[11] == ""
    ensures forall date, time :: 'T' !in date && p.createdAt == date + "T" + time ==> RowFields(p)[7] == date
  {
    forall date, time | 'T' !in date && p.createdAt == date + "T" + time
      ensures RowFields(p)[7] == date
    {
      DatePartOfIso(date, time);
    }
  }

  // ------------------------------------------------------------ CSV text

  /** `replace(/"/g, '""')`. */
  function DoubleQuotes(f: string): (r: string)
    ensures |r| >= |f|
  {
    if |f| == 0 then ""
    else (if f[0] == '"' then "\"\"" else [f[0]]) + DoubleQuotes(f[1..])
  }

  /** Doubling the quotes adds and removes no other character. */
  lemma {:induction false} DoubleQuotesKeeps(f: string, c: char)
    requires c != '"'
    ensures c in DoubleQuotes(f) <==> c in f
  {
    if |f| > 0 {
      DoubleQuotesKeeps(f[1..], c);
      assert f == [f[0]] + f[1..];
    }
  }

  /** A field as written: quoted, with its quotes doubled, when it contains
      a comma; unchanged otherwise. */
  function Escape(f: string): (r: string)
    ensures ',' in f ==> |r| == |DoubleQuotes(f)| + 2 && r[0] == '"' && r[|r| - 1] == '"'
    ensures ',' !in f ==> r == f
  {
    if ',' in f then "\"" + DoubleQuotes(f) + "\"" else f
  }

  /** Escaping adds and removes no character other than quotes. */
  lemma EscapeKeeps(f: string, c: char)
    requires c != '"'
    ensures c in Escape(f) <==> c in f
  {
    if ',' in f {
      DoubleQuotesKeeps(f, c);
      assert Escape(f) == ['"'] + DoubleQuotes(f) + ['"'];
    }
  }

  function EscapeAll(fields: seq<string>): (r: seq<string>)
    ensures |r| == |fields| && forall i :: 0 <= i < |fields| ==> r[i] == Escape(fields[i])
  {
    if |fields| == 0 then [] else [Escape(fields[0])] + EscapeAll(fields[1..])
  }

  function CsvLine(fields: seq<string>): string
  {
    Join(EscapeAll(fields), ",")
  }

  /** The fields of every payout, in order. */
  function RowsFields(rows: seq<PayoutRow>): (r: seq<seq<string>>)
    ensures |r| == |rows| && forall i :: 0 <= i < |rows| ==> r[i] == RowFields(rows[i])
  {
    if |rows| == 0 then [] else [RowFields(rows[0])] + RowsFields(rows[1..])
  }

  /** One written line per row of fields. */
  function TableLines(table: seq<seq<string>>): (r: seq<string>)
    ensures |r| == |table| && forall i :: 0 <= i < |table| ==> r[i] == CsvLine(table[i])
  {
    if |table| == 0 then [] else [CsvLine(table[0])] + TableLines(table[1..])
  }

  /** The header names joined by commas, unescaped, then the line of each
      row, all joined by LF. */
  function CsvText(headers: seq<string>, table: seq<seq<string>>): string
  {
    Join([Join(headers, ",")] + TableLines(table), "\n")
  }

  /** The CSV of the given payouts under the given header names; the export
      writes it under `CSV_HEADERS`. */
  function CsvContent(headers: seq<string>, rows: seq<PayoutRow>): string
  {
    CsvText(headers, RowsFields(rows))
  }

  /** A character absent from every piece and from the separator is absent
      from the joined text. */
  lemma {:induction false} JoinAvoids(pieces: seq<string>, sep: string, c: char)
    requires c !in sep && forall i :: 0 <= i < |pieces| ==> c !in pieces[i]
    ensures c !in Join(pieces, sep)
  {
    if |pieces| > 1 {
      JoinAvoids(pieces[1..], sep, c);
    }
  }

  /** Fields with a quote or a line break but no comma go out unquoted,
      where section 2 of RFC 4180 (rules 6 and 7) wants them enclosed in
      quotes with the inner quotes doubled. So a comma-free field that
      starts with a quote is read as a quoted field and does not come back:
      `"a` reads back as `a`. */
  lemma UnquotedWithoutComma(f: string)
    requires ',' !in f && |f| > 0 && f[0] == '"'
    ensures CsvLine([f]) == f
    ensures ParseLine(CsvLine([f])) != [f]
    ensures ParseLine(CsvLine(["\"a"])) == ["a"]
  {
    assert EscapeAll([f])[0] == Escape(f) == f;
    assert EscapeAll(["\"a"])[0] == Escape("\"a") == "\"a";
    QuotedBodyShorter(f[1..]);
    assert ParseLine(f)[0] == QuotedBody(f[1..]).0;
    assert "\"a"[1..] == "a" && "a"[1..] == "";
    var a := "a";
    assert |a| == 1 && a[0] == 'a' && a[1..] == "";
    assert QuotedBody(a) == ([a[0]] + QuotedBody(a[1..]).0, QuotedBody(a[1..]).1);
    assert [a[0]] + "" == a;
  }

  /** A quoted body is no longer than the text it is read from. */
  lemma {:induction false} QuotedBodyShorter(s: string)
    ensures |QuotedBody(s).0| <= |s|
    decreases |s|
  {
    if |s| > 0 {
      if s[0] == '"' {
        if |s| >= 2 && s[1] == '"' {
          QuotedBodyShorter(s[2..]);
        }
      } else {
        QuotedBodyShorter(s[1..]);
      }
    }
  }

  /** So a field with a line break and no comma puts a line break into its
      row's line, and the CSV then has more lines than rows plus one. */
  lemma LineBreakInField(fields: seq<string>, i: nat)
    requires i < |fields| && '\n' in fields[i]
    ensures '\n' in CsvLine(fields)
  {
    EscapeKeeps(fields[i], '\n');
    JoinHas(EscapeAll(fields), ",", i, '\n');
  }

  /** A character of any piece is in the joined text. */
  lemma {:induction false} JoinHas(pieces: seq<string>, sep: string, i: nat, c: char)
    requires i < |pieces| && c in pieces[i]
    ensures c in Join(pieces, sep)
    decreases i
  {
    if |pieces| > 1 {
      if i == 0 {
        assert Join(pieces, sep) == pieces[0] + (sep + Join(pieces[1..], sep));
      } else {
        JoinHas(pieces[1..], sep, i - 1, c);
        assert Join(pieces, sep) == (pieces[0] + sep) + Join(pieces[1..], sep);
      }
    }
  }

  /** A line break or carriage return in no field is in no line. */
  lemma CsvLineAvoids(fields: seq<string>, c: char)
    requires (c == '\n' || c == '\r') && forall j :: 0 <= j < |fields| ==> c !in fields[j]
    ensures c !in CsvLine(fields)
  {
    forall j | 0 <= j < |fields|
      ensures c !in EscapeAll(fields)[j]
    {
      EscapeKeeps(fields[j], c);
    }
    JoinAvoids(EscapeAll(fields), ",", c);
  }

  /** Fields without a comma are written as they are. */
  lemma EscapeAllPlain(fields: seq<string>)
    requires forall j :: 0 <= j < |fields| ==> ',' !in fields[j]
    ensures EscapeAll(fields) == fields
  {
  }

  /** The characters the writer and reader treat specially. */
  predicate Special(c: char)
  {
    c == ',' || c == '"' || c == '\n' || c == '\r'
  }

  predicate Plain(f: string)
  {
    forall i :: 0 <= i < |f| ==> !Special(f[i])
  }

  /** Header names with no special character. */
  predicate PlainHeaders(headers: seq<string>)
  {
    |headers| > 0 && forall j :: 0 <= j < |headers| ==> Plain(headers[j])
  }

  lemma PlainAvoids(f: string)
    requires Plain(f)
    ensures ',' !in f && '"' !in f && '\n' !in f && '\r' !in f
  {
  }

  /** A header line of plain names is those names written as fields. */
  lemma HeaderLine(headers: seq<string>)
    requires PlainHeaders(headers)
    ensures Join(headers, ",") == CsvLine(headers)
    ensures forall j :: 0 <= j < |headers| ==> ReadsBack(headers[j]) && '\r' !in headers[j]
  {
    forall j | 0 <= j < |headers|
      ensures ',' !in headers[j] && '"' !in headers[j] && '\n' !in headers[j] && '\r' !in headers[j]
    {
      PlainAvoids(headers[j]);
    }
    EscapeAllPlain(headers);
  }

  lemma FirstHeadersArePlain()
    ensures forall j :: 0 <= j < 6 ==> Plain(CSV_HEADERS[j])
  {
    assert Plain("Payout ID") && Plain("Affiliate Name") && Plain("Affiliate Email");
    assert Plain("Affiliate Code") && Plain("Tier") && Plain("Commission Amount");
  }

  lemma LastHeadersArePlain()
    ensures forall j :: 6 <= j < 12 ==> Plain(CSV_HEADERS[j])
  {
    assert Plain("Status") && Plain("Created Date") && Plain("Approved Date");
    assert Plain("Paid Date") && Plain("Transaction ID") && Plain("Notes");
  }

  /** No header name of the export has a comma, quote, line break or
      carriage return. */
  lemma HeadersArePlain()
    ensures PlainHeaders(CSV_HEADERS)
  {
    FirstHeadersArePlain();
    LastHeadersArePlain();
  }

  /** Without a CR in a plain header or in any field there is no CR in the
      text. */
  lemma NoCarriageReturnIn(headers: seq<string>, table: seq<seq<string>>)
    requires PlainHeaders(headers)
    requires forall i, j :: 0 <= i < |table| && 0 <= j < |table[i]| ==> '\r' !in table[i][j]
    ensures '\r' !in CsvText(headers, table)
  {
    var lines := [Join(headers, ",")] + TableLines(table);
    forall k | 0 <= k < |lines|
      ensures '\r' !in lines[k]
    {
      if k == 0 {
        HeaderLine(headers);
        CsvLineAvoids(headers, '\r');
      } else {
        assert lines[k] == CsvLine(table[k - 1]);
        CsvLineAvoids(table[k - 1], '\r');
      }
    }
    JoinAvoids(lines, "\n", '\r');
  }

  /** Lines end in a bare LF: without a CR in a header name or any field
      there is no CR anywhere, where rule 2 of the same section asks for
      CRLF. */
  lemma NoCarriageReturn(headers: seq<string>, rows: seq<PayoutRow>)
    requires PlainHeaders(headers)
    requires forall i, j :: 0 <= i < |rows| && 0 <= j < 12 ==> '\r' !in RowFields(rows[i])[j]
    ensures '\r' !in CsvContent(headers, rows)
  {
    NoCarriageReturnIn(headers, RowsFields(rows));
  }

  // ------------------------------------------------------------ reading back

  /** The position of the first `c`, or the length when there is none. */
  function IndexOf(s: string, c: char): (k: nat)
    ensures k <= |s| && (k < |s| ==> s[k] == c) && forall i :: 0 <= i < k ==> s[i] != c
  {
    if |s| == 0 || s[0] == c then 0 else 1 + IndexOf(s[1..], c)
  }

  /** The pieces between the occurrences of `c`. */
  function SplitOn(s: string, c: char): seq<string>
    decreases |s|
  {
    var k := IndexOf(s, c);
    if k == |s| then [s] else [s[..k]] + SplitOn(s[k + 1..], c)
  }

  /** The contents of a quoted field, read after its opening quote up to a
      lone closing quote with `""` read as `"`, and the text after it. */
  function QuotedBody(s: string): (r: (string, string))
    ensures |r.1| <= |s|
    decreases |s|
  {
    if |s| == 0 then ("", "")
    else if s[0] == '"' then
      if |s| >= 2 && s[1] == '"' then
        var rest := QuotedBody(s[2..]);
        ("\"" + rest.0, rest.1)
      else ("", s[1..])
    else
      var rest := QuotedBody(s[1..]);
      ([s[0]] + rest.0, rest.1)
  }

  /** The fields of one line, split at the commas outside quotes. */
  function ParseLine(s: string): seq<string>
    decreases |s|
  {
    if |s| > 0 && s[0] == '"' then
      var body := QuotedBody(s[1..]);
      if |body.1| > 0 && body.1[0] == ',' then [body.0] + ParseLine(body.1[1..]) else [body.0]
    else
      var k := IndexOf(s, ',');
      if k == |s| then [s] else [s[..k]] + ParseLine(s[k + 1..])
  }

  /** The fields of every line. */
  function ParseLines(lines: seq<string>): (r: seq<seq<string>>)
    ensures |r| == |lines| && forall i :: 0 <= i < |lines| ==> r[i] == ParseLine(lines[i])
  {
    if |lines| == 0 then [] else [ParseLine(lines[0])] + ParseLines(lines[1..])
  }

  function ParseCsv(content: string): seq<seq<string>>
  {
    ParseLines(SplitOn(content, '\n'))
  }

  /** The fields the export writes so that they read back: no line break,
      and a comma whenever there is a quote. */
  predicate ReadsBack(f: string)
  {
    '\n' !in f && (',' in f || '"' !in f)
  }

  lemma {:induction false} QuotedRoundTrip(f: string, rest: string)
    requires |rest| == 0 || rest[0] == ','
    ensures QuotedBody(DoubleQuotes(f) + "\"" + rest) == (f, rest)
    decreases |f|
  {
    var s := DoubleQuotes(f) + "\"" + rest;
    if |f| == 0 {
      assert s == "\"" + rest;
      assert s[0] == '"' && s[1..] == rest;
      assert !(|s| >= 2 && s[1] == '"');
    } else {
      var tail := DoubleQuotes(f[1..]) + "\"" + rest;
      QuotedRoundTrip(f[1..], rest);
      if f[0] == '"' {
        assert s == "\"\"" + tail;
        assert s[0] == '"' && s[1] == '"' && s[2..] == tail;
        assert f == "\"" + f[1..];
      } else {
        assert s == [f[0]] + tail;
        assert s[0] == f[0] && s[1..] == tail;
        assert f == [f[0]] + f[1..];
      }
    }
  }

  /** The first `c` of `a + b` is at the start of `b` when `a` has none
      and `b` is empty or starts with `c`. */
  lemma {:induction false} IndexOfAt(a: string, c: char, b: string)
    requires c !in a && (|b| == 0 || b[0] == c)
    ensures IndexOf(a + b, c) == |a|
    decreases |a|
  {
    if |a| == 0 {
      assert a + b == b;
    } else {
      assert a[0] in a;
      assert (a + b)[1..] == a[1..] + b;
      IndexOfAt(a[1..], c, b);
    }
  }

  /** A quoted field followed by the rest of its line reads back as the
      field, then the rest. */
  lemma QuotedFieldRoundTrip(f: string, rest: string)
    requires ',' in f && (|rest| == 0 || rest[0] == ',')
    ensures |rest| == 0 ==> ParseLine(Escape(f) + rest) == [f]
    ensures |rest| > 0 ==> ParseLine(Escape(f) + rest) == [f] + ParseLine(rest[1..])
  {
    QuotedSplit(f, rest);
    QuotedRoundTrip(f, rest);
  }

  /** A quoted field starts with its quote, then its doubled-quote body. */
  lemma QuotedSplit(f: string, rest: string)
    requires ',' in f
    ensures |Escape(f) + rest| > 0 && (Escape(f) + rest)[0] == '"'
    ensures (Escape(f) + rest)[1..] == DoubleQuotes(f) + "\"" + rest
  {
    var x := DoubleQuotes(f) + "\"" + rest;
    assert Escape(f) + rest == "\"" + x;
  }

  /** An unquoted field followed by the rest of its line reads back as the
      field, then the rest. */
  lemma PlainFieldRoundTrip(f: string, rest: string)
    requires ',' !in f && '"' !in f && (|rest| == 0 || rest[0] == ',')
    ensures |rest| == 0 ==> ParseLine(Escape(f) + rest) == [f]
    ensures |rest| > 0 ==> ParseLine(Escape(f) + rest) == [f] + ParseLine(rest[1..])
  {
    var s := f + rest;
    assert Escape(f) == f;
    if |f| > 0 {
      assert s[0] == f[0];
      assert f[0] in f;
    }
    IndexOfAt(f, ',', rest);
    if |rest| == 0 {
      assert s == f;
    } else {
      assert s[..|f|] == f;
      assert s[|f| + 1..] == rest[1..];
    }
  }

  /** One escaped field followed by the rest of its line reads back as the
      field, then the rest. */
  lemma FieldRoundTrip(f: string, rest: string)
    requires ReadsBack(f) && (|rest| == 0 || rest[0] == ',')
    ensures |rest| == 0 ==> ParseLine(Escape(f) + rest) == [f]
    ensures |rest| > 0 ==> ParseLine(Escape(f) + rest) == [f] + ParseLine(rest[1..])
  {
    if ',' in f {
      QuotedFieldRoundTrip(f, rest);
    } else {
      PlainFieldRoundTrip(f, rest);
    }
  }

  /** Splitting a written line at the unquoted commas and undoing the
      doubled quotes recovers its fields, for fields that read back. */
  lemma {:induction false} LineRoundTrip(fields: seq<string>)
    requires |fields| > 0 && forall i :: 0 <= i < |fields| ==> ReadsBack(fields[i])
    ensures ParseLine(CsvLine(fields)) == fields
    decreases |fields|
  {
    var pieces := EscapeAll(fields);
    if |fields| == 1 {
      FieldRoundTrip(fields[0], "");
      assert Escape(fields[0]) + "" == Escape(fields[0]);
    } else {
      assert EscapeAll(fields[1..]) == pieces[1..];
      var rest := "," + Join(pieces[1..], ",");
      assert CsvLine(fields) == Escape(fields[0]) + rest;
      FieldRoundTrip(fields[0], rest);
      assert rest[1..] == CsvLine(fields[1..]);
      LineRoundTrip(fields[1..]);
      assert fields == [fields[0]] + fields[1..];
    }
  }

  /** Splitting on LF undoes joining lines that have none. */
  lemma {:induction false} SplitJoinLines(lines: seq<string>)
    requires |lines| > 0 && forall i :: 0 <= i < |lines| ==> '\n' !in lines[i]
    ensures SplitOn(Join(lines, "\n"), '\n') == lines
    decreases |lines|
  {
    var first := lines[0];
    if |lines| == 1 {
      IndexOfAt(first, '\n', "");
      assert first + "" == first;
    } else {
      var tail := Join(lines[1..], "\n");
      assert Join(lines, "\n") == first + "\n" + tail;
      SplitAtFirst(first, tail);
      SplitJoinLines(lines[1..]);
      assert lines == [first] + lines[1..];
    }
  }

  /** Splitting a line break-free text, a line break and more text: the
      text, then the pieces of the rest. */
  lemma SplitAtFirst(first: string, tail: string)
    requires '\n' !in first
    ensures SplitOn(first + "\n" + tail, '\n') == [first] + SplitOn(tail, '\n')
  {
    var s := first + "\n" + tail;
    assert s == first + ("\n" + tail);
    IndexOfAt(first, '\n', "\n" + tail);
    assert s[..|first|] == first;
    assert s[|first| + 1..] == tail;
  }

  /** A line of fields that read back has no line break and reads back. */
  lemma LineReadsBack(fields: seq<string>)
    requires |fields| > 0 && FieldsReadBack(fields)
    ensures '\n' !in CsvLine(fields) && ParseLine(CsvLine(fields)) == fields
  {
    CsvLineAvoids(fields, '\n');
    LineRoundTrip(fields);
  }

  /** Every field of a line reads back. */
  predicate FieldsReadBack(fields: seq<string>)
  {
    forall j :: 0 <= j < |fields| ==> ReadsBack(fields[j])
  }

  /** Rows of fields that read back are written as lines without a line
      break that read back as those rows. */
  lemma TableRoundTrip(table: seq<seq<string>>)
    requires forall i :: 0 <= i < |table| ==> |table[i]| > 0 && FieldsReadBack(table[i])
    ensures forall i :: 0 <= i < |table| ==> '\n' !in TableLines(table)[i]
    ensures ParseLines(TableLines(table)) == table
  {
    var lines := TableLines(table);
    forall i | 0 <= i < |table|
      ensures '\n' !in lines[i] && ParseLines(lines)[i] == table[i]
    {
      LineReadsBack(table[i]);
    }
  }

  /** With plain header names and fields that read back, the text reads
      back as the names followed by the rows. */
  lemma CsvTextRoundTrip(headers: seq<string>, table: seq<seq<string>>)
    requires PlainHeaders(headers)
    requires forall i :: 0 <= i < |table| ==> |table[i]| > 0 && FieldsReadBack(table[i])
    ensures ParseCsv(CsvText(headers, table)) == [headers] + table
  {
    HeaderLine(headers);
    LineReadsBack(headers);
    TableRoundTrip(table);
    var lines := [Join(headers, ",")] + TableLines(table);
    forall k | 0 <= k < |lines|
      ensures '\n' !in lines[k]
    {
      if k > 0 {
        assert lines[k] == TableLines(table)[k - 1];
      }
    }
    SplitJoinLines(lines);
    assert lines[1..] == TableLines(table);
  }

  /** For payouts whose fields read back, the CSV reads back as the header
      names (plain, as the export's are) followed by the twelve fields of
      each payout, in order. */
  lemma CsvRoundTrip(headers: seq<string>, rows: seq<PayoutRow>)
    requires PlainHeaders(headers)
    requires forall i :: 0 <= i < |rows| ==> FieldsReadBack(RowFields(rows[i]))
    ensures ParseCsv(CsvContent(headers, rows)) == [headers] + RowsFields(rows)
  {
    RowsReadBack(rows);
    CsvTextRoundTrip(headers, RowsFields(rows));
  }

  lemma RowsReadBack(rows: seq<PayoutRow>)
    requires forall i :: 0 <= i < |rows| ==> FieldsReadBack(RowFields(rows[i]))
    ensures forall i :: 0 <= i < |RowsFields(rows)| ==> |RowsFields(rows)[i]| > 0 && FieldsReadBack(RowsFields(rows)[i])
  {
  }

  // ------------------------------------------------------------ response

  /** The `where` clause: the month, and the status when one is given. */
  predicate Matches(p: PayoutRow, q: ExportQuery)
  {
    p.payoutMonth == q.monthYear && (q.status.None? || p.status == StatusText(q.status.value))
  }

  /** `findMany` with the month and optional status filter, over the
      payouts in the database's `createdAt`-descending order. */
  function Selected(table: seq<PayoutRow>, q: ExportQuery): (r: seq<PayoutRow>)
    ensures forall p :: p in r <==> p in table && Matches(p, q)
  {
    if |table| == 0 then []
    else
      var p := table[0];
      var rest := Selected(table[1..], q);
      assert forall x :: x in table <==> x == p || x in table[1..];
      if Matches(p, q) then [p] + rest else rest
  }

  /** One row is kept exactly when it matches. */
  lemma SelectedOne(p: PayoutRow, q: ExportQuery)
    ensures Selected([p], q) == if Matches(p, q) then [p] else []
  {
    assert [p][1..] == [];
  }

  /** The filter works row by row: selecting from two consecutive parts of
      the table is selecting from each part, in the same order. */
  lemma {:induction false} SelectedConcat(a: seq<PayoutRow>, b: seq<PayoutRow>, q: ExportQuery)
    ensures Selected(a + b, q) == Selected(a, q) + Selected(b, q)
    decreases |a|
  {
    if |a| == 0 {
      assert a + b == b;
    } else {
      assert (a + b)[0] == a[0];
      assert (a + b)[1..] == a[1..] + b;
      SelectedConcat(a[1..], b, q);
    }
  }

  /** Every row is exported as often as the table holds it, when it
      matches, and not at all otherwise. */
  lemma {:induction false} SelectedCount(table: seq<PayoutRow>, q: ExportQuery, p: PayoutRow)
    ensures multiset(Selected(table, q))[p] == if Matches(p, q) then multiset(table)[p] else 0
    decreases |table|
  {
    if |table| > 0 {
      SelectedCount(table[1..], q, p);
      assert table == [table[0]] + table[1..];
    }
  }

  /** Any order between rows that holds along the table, such as
      `createdAt` descending, holds along the export. */
  lemma {:induction false} SelectedKeepsOrder(table: seq<PayoutRow>, q: ExportQuery,
                                              before: (PayoutRow, PayoutRow) -> bool)
    requires forall i, j :: 0 <= i < j < |table| ==> before(table[i], table[j])
    ensures forall i, j :: 0 <= i < j < |Selected(table, q)| ==>
              before(Selected(table, q)[i], Selected(table, q)[j])
    decreases |table|
  {
    if |table| > 0 {
      var rest := Selected(table[1..], q);
      assert forall i, j :: 0 <= i < j < |table[1..]| ==> before(table[1..][i], table[1..][j]) by {
        forall i, j | 0 <= i < j < |table[1..]|
          ensures before(table[1..][i], table[1..][j])
        {
          assert table[1..][i] == table[i + 1] && table[1..][j] == table[j + 1];
        }
      }
      SelectedKeepsOrder(table[1..], q, before);
      if Matches(table[0], q) {
        var r := [table[0]] + rest;
        assert Selected(table, q) == r;
        forall i, j | 0 <= i < j < |r|
          ensures before(r[i], r[j])
        {
          if i == 0 {
            assert r[j] == rest[j - 1] && r[j] in table[1..];
            var k :| 0 <= k < |table[1..]| && table[1..][k] == r[j];
            assert table[0] == r[0] && table[k + 1] == r[j];
          } else {
            assert r[i] == rest[i - 1] && r[j] == rest[j - 1];
          }
        }
      }
    }
  }

  /** `payouts_<month>_<status or "all">_<day>.csv`, with `nowIso` the
      current instant as ISO text. */
  function Filename(q: ExportQuery, nowIso: string): string
  {
    "payouts_" + q.monthYear + "_" + (if q.status.Some? then StatusText(q.status.value) else "all") + "_" +
    DatePart(nowIso) + ".csv"
  }

  datatype Response =
    | CsvFile(content: string, filename: string)
    | JsonExport(payouts: seq<PayoutRow>, monthYear: string, exportedAt: string)
    | ErrorResponse(status: int, message: string)

  /** The `GET` handler. Authentication comes first; an error it throws is
      not a validation error and is answered 500 with its message. */
  function Export(authHeader: Option<string>, verify: string -> Option<AffiliateAuth.JwtPayload>,
                  admins: map<string, AffiliateAuth.Admin>,
                  monthParam: Option<string>, statusParam: Option<string>, formatParam: Option<string>,
                  currentMonth: string, nowIso: string, table: seq<PayoutRow>): Response
  {
    var auth := AffiliateAuth.RequireAuth(authHeader, verify, admins);
    if auth.Err? then ErrorResponse(500, AffiliateAuth.Message(auth.error))
    else
      var q := ParseQuery(monthParam, statusParam, formatParam, currentMonth);
      if q.None? then ErrorResponse(400, "Invalid query parameters")
      else
        var payouts := Selected(table, q.value);
        if q.value.format == Json then JsonExport(payouts, q.value.monthYear, nowIso)
        else CsvFile(CsvContent(CSV_HEADERS, payouts), Filename(q.value, nowIso))
  }

  /** An unauthenticated request is answered 500 with the guard's message
      whatever its query; an authenticated one with a bad query 400; a good
      one with the selected payouts as CSV, under the month and status file
      name, or as JSON. */
  lemma ExportOutcome(authHeader: Option<string>, verify: string -> Option<AffiliateAuth.JwtPayload>,
                      admins: map<string, AffiliateAuth.Admin>,
                      monthParam: Option<string>, statusParam: Option<string>, formatParam: Option<string>,
                      currentMonth: string, nowIso: string, table: seq<PayoutRow>)
    ensures var r := Export(authHeader, verify, admins, monthParam, statusParam, formatParam, currentMonth, nowIso, table);
      var auth := AffiliateAuth.RequireAuth(authHeader, verify, admins);
      var q := ParseQuery(monthParam, statusParam, formatParam, currentMonth);
      (auth.Err? ==> r == ErrorResponse(500, AffiliateAuth.Message(auth.error))) &&
      (r.ErrorResponse? && r.status == 400 <==> auth.Ok? && q.None?) &&
      (r.CsvFile? <==> auth.Ok? && q.Some? && q.value.format == Csv) &&
      (r.JsonExport? <==> auth.Ok? && q.Some? && q.value.format == Json) &&
      (r.CsvFile? ==> r.content == CsvContent(CSV_HEADERS, Selected(table, q.value)) &&
                      StartsWith(r.filename, "payouts_" + q.value.monthYear + "_")) &&
      (r.JsonExport? ==> r.payouts == Selected(table, q.value) && r.monthYear == q.value.monthYear)
  {
    var q := ParseQuery(monthParam, statusParam, formatParam, currentMonth);
    if q.Some? {
      FilenameStarts(q.value, nowIso);
    }
  }

  /** The file name starts with the month and then names the status, or
      "all", and the current day. */
  lemma FilenameStarts(q: ExportQuery, nowIso: string)
    ensures StartsWith(Filename(q, nowIso), "payouts_" + q.monthYear + "_")
    ensures q.status.None? ==> Filename(q, nowIso) == "payouts_" + q.monthYear + "_all_" + DatePart(nowIso) + ".csv"
  {
    var prefix := "payouts_" + q.monthYear + "_";
    var x := if q.status.Some? then StatusText(q.status.value) else "all";
    var d := DatePart(nowIso);
    assert StartsWith(prefix, prefix);
    ExtendKeepsStart(prefix, prefix, x);
    ExtendKeepsStart(prefix + x, prefix, "_");
    ExtendKeepsStart(prefix + x + "_", prefix, d);
    ExtendKeepsStart(prefix + x + "_" + d, prefix, ".csv");
    if q.status.None? {
      assert prefix + x + "_" == "payouts_" + q.monthYear + "_all_";
    }
  }

  /** Appending keeps a prefix. */
  lemma ExtendKeepsStart(s: string, p: string, t: string)
    requires StartsWith(s, p)
    ensures StartsWith(s + t, p)
  {
    assert (s + t)[..|p|] == s[..|p|];
  }
}
