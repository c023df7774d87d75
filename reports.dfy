/**
 * The Reports page: the report catalogue, the CSV text `downloadReport` builds from a
 * generator's rows, the download's file name and the toast that reports the outcome.
 * The clock is a parameter (`isoNow` stands for `new Date().toISOString()`); the
 * `Blob`/link mechanics of the download are not modelled.
 */
module Reports {
  import opened Wrappers
  import opened Toasts
  import Seqs
  import Text
  import Json
  import Inventory

  /** `JSON.stringify(row[header])` as `join` writes it: nothing for `undefined` or a missing key. */
  function Cell(v: Option<Json.Value>): (c: string)
    ensures c == "" <==> (v.None? || v.value.Undefined?)
    ensures '\n' !in c
  {
    match v
    case None => ""
    case Some(x) =>
      if x.Undefined? then ""
      else
        Json.StringifyHasNoNewline(x);
        Json.Stringify(x).value
  }

  /** The fields of one data line: for each header, in header order, the row's value under it. */
  function Fields(headers: seq<string>, row: Json.Row): (fs: seq<string>)
    ensures |fs| == |headers|
    ensures forall i :: 0 <= i < |headers| ==> fs[i] == Cell(Json.Lookup(row, headers[i]))
  {
    seq(|headers|, i requires 0 <= i < |headers| => Cell(Json.Lookup(row, headers[i])))
  }

  /** `headers.map((header) => JSON.stringify(row[header])).join(",")`. */
  function DataLine(headers: seq<string>, row: Json.Row): (line: string)
    ensures '\n' !in line
  {
    var fs := Fields(headers, row);
    Text.JoinWithout(fs, ",", '\n');
    Text.Join(fs, ",")
  }

  /** One data line per row, in row order. */
  function DataLines(headers: seq<string>, rows: seq<Json.Row>): (ls: seq<string>)
    ensures |ls| == |rows|
    ensures forall i :: 0 <= i < |rows| ==> ls[i] == DataLine(headers, rows[i])
    decreases |rows|
  {
    if rows == [] then []
    else
      var init := rows[..|rows| - 1];
      assert forall i :: 0 <= i < |init| ==> init[i] == rows[i];
      DataLines(headers, init) + [DataLine(headers, rows[|rows| - 1])]
  }

  /**
   * The text after the header line and the first `|rows|` data lines, each line followed
   * by a line break: what `csvContent` holds after that many turns of the loop.
   */
  function CsvUpTo(headers: seq<string>, rows: seq<Json.Row>): string
    decreases |rows|
  {
    if rows == [] then Text.Join(headers, ",") + "\n"
    else CsvUpTo(headers, rows[..|rows| - 1]) + (DataLine(headers, rows[|rows| - 1]) + "\n")
  }

  /**
   * The text `downloadReport` assembles: the first row's keys joined by commas, a line
   * break, then one line per row. Without rows there is none: `Object.keys(data[0])` throws.
   */
  function CsvText(rows: seq<Json.Row>): (r: Option<string>)
    ensures r.None? <==> rows == []
  {
    if rows == [] then None else Some(CsvUpTo(Json.Keys(rows[0]), rows))
  }

  /** The `csvContent +=` loop of `downloadReport`, over the rows in order. */
  method BuildCsv(rows: seq<Json.Row>) returns (csv: Option<string>)
    ensures csv == CsvText(rows)
  {
    if rows == [] {
      return None;
    }
    var headers := Json.Keys(rows[0]);
    var content := Text.Join(headers, ",") + "\n";
    var i := 0;
    while i < |rows|
      invariant 0 <= i <= |rows|
      invariant content == CsvUpTo(headers, rows[..i])
    {
      assert rows[..i + 1][..i] == rows[..i];
      content := content + (DataLine(headers, rows[i]) + "\n");
      i := i + 1;
    }
    assert rows[..|rows|] == rows;
    return Some(content);
  }

  /** The lines of a text: the pieces between line breaks, with no empty piece after a final break. */
  function Lines(s: string): seq<string>
    decreases |s|
  {
    if s == [] then []
    else
      var k := Text.IndexOf(s, '\n');
      if k == |s| then [s] else [s[..k]] + Lines(s[k + 1..])
  }

  /** A text ending in a line break, or empty. */
  predicate EndsLine(s: string) {
    s == [] || s[|s| - 1] == '\n'
  }

  lemma LinesOfLine(line: string)
    requires '\n' !in line
    ensures Lines(line + "\n") == [line]
  {
    var s := line + "\n";
    Text.IndexOfAfter(line, '\n', "");
    assert line + ['\n'] + "" == s;
    assert s[..|line|] == line;
    assert s[|line| + 1..] == [];
  }

  /** A text holding a line break starts with the line before it. */
  lemma LinesUnfold(s: string)
    requires Text.IndexOf(s, '\n') < |s|
    ensures var k := Text.IndexOf(s, '\n'); Lines(s) == [s[..k]] + Lines(s[k + 1..])
  {
  }

  /** Text appended after a line break leaves the first line alone. */
  lemma LinesAfterFirst(x: string, y: string)
    requires Text.IndexOf(x, '\n') < |x|
    ensures var k := Text.IndexOf(x, '\n'); Lines(x + y) == [x[..k]] + Lines(x[k + 1..] + y)
  {
    var k := Text.IndexOf(x, '\n');
    Text.IndexOfPrefix(x, y, '\n');
    LinesUnfold(x + y);
    Seqs.CutConcat(x, y, k);
    Seqs.CutConcat(x, y, k + 1);
  }

  /** Appending a line and its break to a text of whole lines adds that one line. */
  lemma {:induction false} LinesSnoc(x: string, line: string)
    requires EndsLine(x)
    requires '\n' !in line
    ensures Lines(x + (line + "\n")) == Lines(x) + [line]
    decreases |x|
  {
    if x == [] {
      assert x + (line + "\n") == line + "\n";
      LinesOfLine(line);
    } else {
      var k := Text.IndexOf(x, '\n');
      assert k < |x| by {
        assert x[|x| - 1] == '\n';
        assert x[..|x|] == x;
      }
      var rest := x[k + 1..];
      LinesAfterFirst(x, line + "\n");
      LinesUnfold(x);
      assert EndsLine(rest) by {
        if rest != [] {
          assert rest[|rest| - 1] == x[|x| - 1];
        }
      }
      LinesSnoc(rest, line);
      Seqs.ConcatAssoc([x[..k]], Lines(rest), [line]);
    }
  }

  /** Each accumulated prefix ends with a line break, and its lines are the header line and the data lines so far. */
  lemma {:induction false} CsvUpToLines(headers: seq<string>, rows: seq<Json.Row>)
    requires '\n' !in Text.Join(headers, ",")
    ensures var text := CsvUpTo(headers, rows);
      && text != [] && text[|text| - 1] == '\n'
      && Lines(text) == [Text.Join(headers, ",")] + DataLines(headers, rows)
    decreases |rows|
  {
    if rows == [] {
      LinesOfLine(Text.Join(headers, ","));
    } else {
      var init := rows[..|rows| - 1];
      var line := DataLine(headers, rows[|rows| - 1]);
      var prev := CsvUpTo(headers, init);
      CsvUpToLines(headers, init);
      LinesSnoc(prev, line);
      var text := prev + (line + "\n");
      assert CsvUpTo(headers, rows) == text;
      assert text[|text| - 1] == '\n';
      var h := [Text.Join(headers, ",")];
      assert DataLines(headers, rows) == DataLines(headers, init) + [line];
      assert Lines(text) == (h + DataLines(headers, init)) + [line];
      Seqs.ConcatAssoc(h, DataLines(headers, init), [line]);
    }
  }

  /**
   * The CSV splits into exactly one header line and one line per row, each ending in a
   * line break: the header line is the first row's keys joined by commas, and line
   * `i + 1` is row `i`'s fields in header order. This holds because `JSON.stringify`
   * escapes every line break inside a value.
   */
  lemma CsvLines(rows: seq<Json.Row>)
    requires rows != []
    requires forall k :: k in Json.Keys(rows[0]) ==> '\n' !in k
    ensures var headers, text := Json.Keys(rows[0]), CsvText(rows).value;
      && Lines(text) == [Text.Join(headers, ",")] + DataLines(headers, rows)
      && |Lines(text)| == |rows| + 1
      && text[|text| - 1] == '\n'
  {
    var headers := Json.Keys(rows[0]);
    assert forall i :: 0 <= i < |headers| ==> '\n' !in headers[i] by {
      forall i | 0 <= i < |headers| ensures '\n' !in headers[i] {
        assert headers[i] in headers;
      }
    }
    Text.JoinWithout(headers, ",", '\n');
    CsvUpToLines(headers, rows);
  }

  /** `s.replace(/\s+/g, "_")`: every run of white space becomes one underscore. */
  function Slug(s: string): (r: string)
    ensures |r| <= |s|
    ensures forall i :: 0 <= i < |r| ==> !Text.IsWhitespace(r[i])
    decreases |s|
  {
    if s == [] then ""
    else if Text.IsWhitespace(s[0]) then
      var k := Text.LeadingSpace(s);
      "_" + Slug(s[k..])
    else [s[0]] + Slug(s[1..])
  }

  /** Text without white space is left as it is. */
  lemma {:induction false} SlugOfPlain(s: string)
    requires forall i :: 0 <= i < |s| ==> !Text.IsWhitespace(s[i])
    ensures Slug(s) == s
    decreases |s|
  {
    if s != [] {
      SlugOfPlain(s[1..]);
    }
  }

  lemma LeadingSpaceOfConcat(x: string, y: string)
    ensures Text.LeadingSpace(x) < |x| ==> Text.LeadingSpace(x + y) == Text.LeadingSpace(x)
    ensures Text.LeadingSpace(x) == |x| ==> Text.LeadingSpace(x + y) == |x| + Text.LeadingSpace(y)
    decreases |x|
  {
    if x != [] && Text.IsWhitespace(x[0]) {
      assert (x + y)[1..] == x[1..] + y;
      LeadingSpaceOfConcat(x[1..], y);
    } else if x == [] {
      assert x + y == y;
    }
  }

  /** A non-empty run of white space is its own leading space. */
  lemma RunIsLeadingSpace(w: string, b: string)
    requires w != [] && forall i :: 0 <= i < |w| ==> Text.IsWhitespace(w[i])
    requires b == [] || !Text.IsWhitespace(b[0])
    ensures Text.LeadingSpace(w + b) == |w|
  {
    assert Text.LeadingSpace(w) == |w|;
    LeadingSpaceOfConcat(w, b);
  }

  /**
   * A run of white space between two pieces becomes exactly one underscore, whatever
   * its length: the pieces are slugged on their own.
   */
  lemma SlugCollapsesRun(a: string, w: string, b: string)
    requires w != [] && forall i :: 0 <= i < |w| ==> Text.IsWhitespace(w[i])
    requires a == [] || !Text.IsWhitespace(a[|a| - 1])
    requires b == [] || !Text.IsWhitespace(b[0])
    ensures Slug(a + w + b) == Slug(a) + "_" + Slug(b)
  {
    SlugSplits(a, w + b);
    SlugOfRun(w, b);
    Seqs.ConcatAssoc(a, w, b);
    Seqs.ConcatAssoc(Slug(a), "_", Slug(b));
  }

  /** Slugging splits where a piece ending in something other than white space meets white space. */
  lemma {:induction false} SlugSplits(a: string, c: string)
    requires a == [] || !Text.IsWhitespace(a[|a| - 1])
    requires c == [] || Text.IsWhitespace(c[0])
    ensures Slug(a + c) == Slug(a) + Slug(c)
    decreases |a|
  {
    if a == [] {
      assert a + c == c;
    } else if Text.IsWhitespace(a[0]) {
      var k := Text.LeadingSpace(a);
      assert k < |a| by {
        assert !Text.IsWhitespace(a[|a| - 1]);
      }
      SlugSplits(a[k..], c);
      SlugRunThenRest(a, c, Slug(c));
    } else {
      SlugSplits(a[1..], c);
      SlugCharThenRest(a, c, Slug(c));
    }
  }

  /** The step for a piece that starts with a run of white space followed by something else. */
  lemma SlugRunThenRest(a: string, c: string, tail: string)
    requires a != [] && Text.IsWhitespace(a[0]) && Text.LeadingSpace(a) < |a|
    requires var k := Text.LeadingSpace(a); Slug(a[k..] + c) == Slug(a[k..]) + tail
    ensures Slug(a + c) == Slug(a) + tail
  {
    var k := Text.LeadingSpace(a);
    LeadingSpaceOfConcat(a, c);
    assert (a + c)[k..] == a[k..] + c;
    Seqs.ConcatAssoc("_", Slug(a[k..]), tail);
  }

  /** The step for a piece that starts with a character other than white space. */
  lemma SlugCharThenRest(a: string, c: string, tail: string)
    requires a != [] && !Text.IsWhitespace(a[0])
    requires Slug(a[1..] + c) == Slug(a[1..]) + tail
    ensures Slug(a + c) == Slug(a) + tail
  {
    assert (a + c)[1..] == a[1..] + c;
    Seqs.ConcatAssoc([a[0]], Slug(a[1..]), tail);
  }

  /** A run of white space at the front becomes one underscore. */
  lemma SlugOfRun(w: string, b: string)
    requires w != [] && forall i :: 0 <= i < |w| ==> Text.IsWhitespace(w[i])
    requires b == [] || !Text.IsWhitespace(b[0])
    ensures Slug(w + b) == "_" + Slug(b)
  {
    RunIsLeadingSpace(w, b);
    assert (w + b)[|w|..] == b;
  }

  /** `new Date().toISOString().split("T")[0]`: the text before the first "T". */
  function DatePart(iso: string): (d: string)
    ensures |d| <= |iso| && d == iso[..|d|]
    ensures 'T' !in d
    ensures |d| < |iso| ==> iso[|d|] == 'T'
  {
    iso[..Text.IndexOf(iso, 'T')]
  }

  /** The download's name: the report name lowered and slugged, "_", the date part, ".csv". */
  function FileName(reportName: string, isoNow: string): (f: string)
    ensures |f| >= 5 && f[|f| - 4..] == ".csv"
  {
    Slug(Text.ToLower(reportName)) + "_" + DatePart(isoNow) + ".csv"
  }

  /**
   * A name whose first word is followed by white space: the file name starts with that
   * word lowered, one underscore, and the rest of the name lowered and slugged.
   */
  lemma FileNameOfWords(word: string, space: string, rest: string, isoNow: string)
    requires forall i :: 0 <= i < |word| ==> !Text.IsWhitespace(word[i])
    requires space != [] && forall i :: 0 <= i < |space| ==> Text.IsWhitespace(space[i])
    requires rest == [] || !Text.IsWhitespace(rest[0])
    ensures FileName(word + space + rest, isoNow)
         == Text.ToLower(word) + "_" + Slug(Text.ToLower(rest)) + "_" + DatePart(isoNow) + ".csv"
  {
    var lw, ls, lr := Text.ToLower(word), Text.ToLower(space), Text.ToLower(rest);
    Text.ToLowerConcat(word + space, rest);
    Text.ToLowerConcat(word, space);
    forall i | 0 <= i < |word| ensures !Text.IsWhitespace(lw[i]) {
      Text.LowerCharKeepsWhitespace(word[i]);
    }
    forall i | 0 <= i < |space| ensures Text.IsWhitespace(ls[i]) {
      Text.LowerCharKeepsWhitespace(space[i]);
    }
    if rest != [] {
      Text.LowerCharKeepsWhitespace(rest[0]);
    }
    SlugOfPlain(lw);
    if lw != [] {
      assert !Text.IsWhitespace(lw[|lw| - 1]);
    }
    SlugCollapsesRun(lw, ls, lr);
  }

  datatype ReportKind = Inventory | Sales | LowStock

  /** The label each report carries; the Sales Report says "Excel" but is downloaded as CSV like the rest. */
  datatype Format = CSV | PDF | Excel

  function Name(k: ReportKind): string {
    match k
    case Inventory => "Inventory Report"
    case Sales => "Sales Report"
    case LowStock => "Low Stock Report"
  }

  function Label(k: ReportKind): Format {
    match k
    case Inventory => CSV
    case Sales => Excel
    case LowStock => CSV
  }

  /** Each report's generator; only the sales report can throw (on a sale of an unknown product). */
  function Generate(k: ReportKind, products: seq<Inventory.Product>, categories: seq<Inventory.Category>,
                    transactions: seq<Inventory.Transaction>, localeDate: Inventory.Transaction -> string): Option<seq<Json.Row>>
  {
    match k
    case Inventory => Some(Inventory.InventoryReport(products, categories))
    case Sales => Inventory.SalesReport(products, transactions, localeDate)
    case LowStock => Some(Inventory.LowStockReport(products, categories))
  }

  datatype Download = Download(fileName: string, content: string)

  /**
   * `downloadReport`: a file named from the report and today's date holding the CSV, and
   * a success toast; when the generator throws or there are no rows, no file and an
   * error toast.
   */
  method DownloadReport(k: ReportKind, products: seq<Inventory.Product>, categories: seq<Inventory.Category>,
                        transactions: seq<Inventory.Transaction>, localeDate: Inventory.Transaction -> string,
                        isoNow: string)
    returns (file: Option<Download>, toast: Toast)
    ensures var data := Generate(k, products, categories, transactions, localeDate);
      file.Some? <==> data.Some? && data.value != []
    ensures var data := Generate(k, products, categories, transactions, localeDate);
      file.Some? ==> file.value == Download(FileName(Name(k), isoNow), CsvText(data.value).value)
    ensures toast == if file.Some? then SuccessToast(Name(k) + " downloaded successfully")
                      else ErrorToast("Failed to generate " + Name(k))
  {
    var data := Generate(k, products, categories, transactions, localeDate);
    if data.None? {
      return None, ErrorToast("Failed to generate " + Name(k));
    }
    var csv := BuildCsv(data.value);
    if csv.None? {
      return None, ErrorToast("Failed to generate " + Name(k));
    }
    file := Some(Download(FileName(Name(k), isoNow), csv.value));
    toast := SuccessToast(Name(k) + " downloaded successfully");
  }
}
