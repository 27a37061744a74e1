/**
  The CSV export of src/App.jsx: every field is quoted with inner quotes
  doubled, six fields per entry joined by ';', and the file is a byte order
  mark followed by the header line and one line per entry of the month,
  separated by line feeds. A reader of that format is defined alongside, and
  reading an exported file gives back the header and every entry's fields.
 */
module CsvExport {
  import opened Wrappers
  import opened Text
  import opened Ledger
  import opened Breakdown

  const Sep: char := ';'
  const Quote: char := '"'
  const Bom: char := '\U{FEFF}'

  const Headers: seq<string> := ["Дата", "Тип", "Група", "Категория", "Описание", "Сума (лв.)"]

  /** `String(v).replace(/"/g, '""')`: every quote doubled. */
  function EscBody(v: string): (r: string)
    ensures |r| >= |v|
    ensures Quote !in v ==> r == v
  {
    if v == [] then []
    else (if v[0] == Quote then [Quote, Quote] else [v[0]]) + EscBody(v[1..])
  }

  /** `esc`: the text between quotes, with its own quotes doubled. */
  function Esc(v: string): (r: string)
    ensures |r| >= 2 && r[0] == Quote && r[|r| - 1] == Quote
  {
    [Quote] + EscBody(v) + [Quote]
  }

  /** Every field quoted. */
  function EscAll(fs: seq<string>): (r: seq<string>)
    ensures |r| == |fs| && forall i :: 0 <= i < |fs| ==> r[i] == Esc(fs[i])
  {
    seq(|fs|, i requires 0 <= i < |fs| => Esc(fs[i]))
  }

  /** A character put in front of the text of a read, if the read succeeded. */
  function Prepend(c: char, r: Option<(string, string)>): Option<(string, string)> {
    match r
    case None => None
    case Some((v, rest)) => Some(([c] + v, rest))
  }

  /** Reads a quoted field whose opening quote is already consumed: the field's text and what follows its closing quote. */
  function ReadQuoted(s: string): (r: Option<(string, string)>)
    ensures r.Some? ==> |r.value.1| < |s|
    decreases |s|
  {
    if s == [] then None
    else if s[0] != Quote then Prepend(s[0], ReadQuoted(s[1..]))
    else if |s| >= 2 && s[1] == Quote then Prepend(Quote, ReadQuoted(s[2..]))
    else Some(([], s[1..]))
  }

  /** Reads one quoted field. */
  function ReadField(s: string): (r: Option<(string, string)>)
    ensures r.Some? ==> |r.value.1| < |s|
  {
    if s != [] && s[0] == Quote then ReadQuoted(s[1..]) else None
  }

  /** Reads the quoted fields of one line, separated by ';': the fields and what follows the last one. */
  function ReadFields(s: string): (r: Option<(seq<string>, string)>)
    ensures r.Some? ==> |r.value.0| >= 1 && |r.value.1| < |s|
    decreases |s|
  {
    match ReadField(s)
    case None => None
    case Some((f, rest)) =>
      if rest != [] && rest[0] == Sep then
        match ReadFields(rest[1..])
        case None => None
        case Some((fs, tail)) => Some(([f] + fs, tail))
      else Some(([f], rest))
  }

  /** What may follow a field without being read as part of it or as the start of another. */
  predicate EndsField(rest: string) {
    rest == [] || (rest[0] != Quote && rest[0] != Sep)
  }

  /** The escape of one character: a quote is doubled, any other character kept. */
  function EscChar(c: char): string {
    if c == Quote then [Quote, Quote] else [c]
  }

  /** The reader takes back one escaped character in front of a text it reads as `w`. */
  lemma ReadQuotedStep(c: char, tail: string, w: string, rest: string)
    requires ReadQuoted(tail) == Some((w, rest))
    ensures ReadQuoted(EscChar(c) + tail) == Some(([c] + w, rest))
  {
    assert Prepend(c, ReadQuoted(tail)) == Some(([c] + w, rest));
    var s := EscChar(c) + tail;
    if c == Quote {
      assert s[0] == Quote && s[1] == Quote && s[2..] == tail;
    } else {
      assert s[0] == c && s[1..] == tail;
    }
  }

  /** Reading an escaped field gives the original text back, whatever follows the closing quote. */
  lemma {:induction false} ReadQuotedEsc(v: string, rest: string)
    requires rest == [] || rest[0] != Quote
    ensures ReadQuoted(EscBody(v) + [Quote] + rest) == Some((v, rest))
    decreases |v|
  {
    if v == [] {
      assert EscBody(v) + [Quote] + rest == [Quote] + rest;
    } else {
      ReadQuotedEsc(v[1..], rest);
      ReadQuotedEscCons(v[0], v[1..], rest);
      assert [v[0]] + v[1..] == v;
    }
  }

  /** One more character in front of an escaped text that reads back. */
  lemma ReadQuotedEscCons(c: char, w: string, rest: string)
    requires ReadQuoted(EscBody(w) + [Quote] + rest) == Some((w, rest))
    ensures ReadQuoted(EscBody([c] + w) + [Quote] + rest) == Some(([c] + w, rest))
  {
    var tail := EscBody(w) + [Quote] + rest;
    assert EscBody([c] + w) == EscChar(c) + EscBody(w) by {
      assert ([c] + w)[1..] == w;
    }
    Regroup(EscChar(c), EscBody(w), [Quote], rest);
    ReadQuotedStep(c, tail, w, rest);
  }

  lemma Regroup(a: string, b: string, c: string, d: string)
    ensures a + b + c + d == a + (b + c + d)
  {
  }

  lemma ReadFieldEsc(v: string, rest: string)
    requires rest == [] || rest[0] != Quote
    ensures ReadField(Esc(v) + rest) == Some((v, rest))
  {
    ReadQuotedEsc(v, rest);
    assert (Esc(v) + rest)[1..] == EscBody(v) + [Quote] + rest;
  }

  /** Reading a line of escaped fields joined by ';' gives the fields back. */
  lemma {:induction false} ReadFieldsJoin(fs: seq<string>, rest: string)
    requires |fs| >= 1 && EndsField(rest)
    ensures ReadFields(Join(EscAll(fs), [Sep]) + rest) == Some((fs, rest))
    decreases |fs|
  {
    var e := EscAll(fs);
    if |fs| == 1 {
      assert Join(e, [Sep]) == Esc(fs[0]);
      ReadFieldsLast(fs[0], rest);
      assert [fs[0]] == fs;
    } else {
      var tail := Join(EscAll(fs[1..]), [Sep]);
      assert e[1..] == EscAll(fs[1..]);
      assert Join(e, [Sep]) == Esc(fs[0]) + [Sep] + tail;
      ReadFieldsJoin(fs[1..], rest);
      ReadFieldsCons(fs[0], tail, rest, fs[1..]);
      assert [fs[0]] + fs[1..] == fs;
    }
  }

  /** The last field of a line reads back, and reading stops before what follows it. */
  lemma ReadFieldsLast(f: string, rest: string)
    requires EndsField(rest)
    ensures ReadFields(Esc(f) + rest) == Some(([f], rest))
  {
    ReadFieldEsc(f, rest);
  }

  /** A field and a separator in front of fields that read back. */
  lemma ReadFieldsCons(f: string, line: string, rest: string, fs: seq<string>)
    requires ReadFields(line + rest) == Some((fs, rest))
    ensures ReadFields(Esc(f) + [Sep] + line + rest) == Some(([f] + fs, rest))
  {
    var after := [Sep] + line + rest;
    ReadFieldEsc(f, after);
    assert after[1..] == line + rest;
    Regroup(Esc(f), [Sep], line, rest);
  }

  /** The six fields of an entry's line: date, type, group, category, description, amount. */
  function Fields(e: Entry, cats: seq<Category>, dateText: string -> string, fixed2: real -> string): (fs: seq<string>)
    ensures |fs| == 6
  {
    var tip := if e.kind.Expense? then "Разход" else IncomeLabel;
    var group := match e.kind
      case Expense(g, _) => if g == Fixed then "Фиксирани" else "Променливи"
      case Income(_) => "";
    var category := match e.kind
      case Expense(_, c) => LabelFor(cats, c)
      case Income(c) => if c != "" then c else IncomeLabel;
    var amount := ReplaceFirst(fixed2(e.amount), '.', ',');
    [dateText(e.date), tip, group, category, e.description, amount]
  }

  /** One line of the export. */
  function CsvLine(e: Entry, cats: seq<Category>, dateText: string -> string, fixed2: real -> string): string {
    Join(EscAll(Fields(e, cats, dateText, fixed2)), [Sep])
  }

  /** The lines of the month's entries, in the order of the month view. */
  function CsvLines(ms: seq<Entry>, cats: seq<Category>, dateText: string -> string, fixed2: real -> string): (ls: seq<string>)
    ensures |ls| == |ms| && forall i :: 0 <= i < |ms| ==> ls[i] == CsvLine(ms[i], cats, dateText, fixed2)
  {
    seq(|ms|, i requires 0 <= i < |ms| => CsvLine(ms[i], cats, dateText, fixed2))
  }

  /** The header line: the column names joined by ';', unquoted. */
  function HeaderLine(): string {
    Join(Headers, [Sep])
  }

  /** The file: the byte order mark, then the header and the lines joined by line feeds. */
  function CsvFile(ms: seq<Entry>, cats: seq<Category>, dateText: string -> string, fixed2: real -> string): (f: string)
    ensures |f| >= 1 && f[0] == Bom
  {
    [Bom] + Join([HeaderLine()] + CsvLines(ms, cats, dateText, fixed2), "\n")
  }

  /** Reads records separated by line feeds to the end of the text. */
  function ReadRecords(s: string): (r: Option<seq<seq<string>>>)
    decreases |s|
  {
    match ReadFields(s)
    case None => None
    case Some((fs, rest)) =>
      if rest == [] then Some([fs])
      else if rest[0] == '\n' then
        match ReadRecords(rest[1..])
        case None => None
        case Some(rs) => Some([fs] + rs)
      else None
  }

  /** Reads a file: the byte order mark, the header up to the first line feed, then the records. */
  function ReadFile(s: string): Option<(string, seq<seq<string>>)> {
    if s == [] || s[0] != Bom then None
    else
      var body := s[1..];
      if '\n' !in body then Some((body, []))
      else
        var i := IndexOf(body, '\n');
        match ReadRecords(body[i + 1..])
        case None => None
        case Some(rs) => Some((body[..i], rs))
  }

  /** Reading lines of escaped fields joined by line feeds gives every line's fields back. */
  lemma {:induction false} ReadRecordsJoin(rows: seq<seq<string>>)
    requires |rows| >= 1 && forall i :: 0 <= i < |rows| ==> |rows[i]| >= 1
    ensures ReadRecords(Join(Lines(rows), "\n")) == Some(rows)
    decreases |rows|
  {
    var lines := Lines(rows);
    if |rows| == 1 {
      var line := Join(EscAll(rows[0]), [Sep]);
      assert Join(lines, "\n") == line;
      ReadFieldsJoin(rows[0], []);
      assert line + [] == line;
      assert ReadFields(line) == Some((rows[0], []));
      assert [rows[0]] == rows;
    } else {
      var more := Lines(rows[1..]);
      assert lines[1..] == more;
      var tail := Join(more, "\n");
      assert Join(lines, "\n") == lines[0] + ("\n" + tail);
      ReadFieldsJoin(rows[0], "\n" + tail);
      ReadRecordsJoin(rows[1..]);
      assert ("\n" + tail)[1..] == tail;
      assert [rows[0]] + rows[1..] == rows;
    }
  }

  /** The rows the export writes: the six fields of every entry of the month. */
  function Rows(ms: seq<Entry>, cats: seq<Category>, dateText: string -> string, fixed2: real -> string): (rows: seq<seq<string>>)
    ensures |rows| == |ms| && forall i :: 0 <= i < |ms| ==> rows[i] == Fields(ms[i], cats, dateText, fixed2)
  {
    seq(|ms|, i requires 0 <= i < |ms| => Fields(ms[i], cats, dateText, fixed2))
  }

  /** The lines of `rows`: each row's fields escaped and joined by ';'. */
  function Lines(rows: seq<seq<string>>): (ls: seq<string>)
    ensures |ls| == |rows|
  {
    seq(|rows|, i requires 0 <= i < |rows| => Join(EscAll(rows[i]), [Sep]))
  }

  /** Reading a file made of a byte order mark, a header without line feeds and lines of escaped fields gives both back. */
  lemma ReadFileOf(header: string, rows: seq<seq<string>>)
    requires '\n' !in header
    requires forall i :: 0 <= i < |rows| ==> |rows[i]| >= 1
    ensures ReadFile([Bom] + Join([header] + Lines(rows), "\n")) == Some((header, rows))
  {
    var lines := Lines(rows);
    var f := [Bom] + Join([header] + lines, "\n");
    TailOfConcat([Bom], Join([header] + lines, "\n"));
    if rows == [] {
      assert [header] + lines == [header];
    } else {
      var body := Join(lines, "\n");
      JoinCons(header, lines, "\n");
      SplitIndex(header, body);
      ReadRecordsJoin(rows);
    }
  }

  /** Reading an exported file gives back its header and, line by line, the six fields of every entry. */
  lemma ReadExport(ms: seq<Entry>, cats: seq<Category>, dateText: string -> string, fixed2: real -> string)
    ensures ReadFile(CsvFile(ms, cats, dateText, fixed2)) == Some((HeaderLine(), Rows(ms, cats, dateText, fixed2)))
  {
    var rows := Rows(ms, cats, dateText, fixed2);
    JoinWithout(Headers, [Sep], '\n');
    assert CsvLines(ms, cats, dateText, fixed2) == Lines(rows);
    ReadFileOf(HeaderLine(), rows);
  }

  /** The first line feed of `a + "\n" + b`, with none in `a`, is the one after `a`. */
  lemma SplitIndex(a: string, b: string)
    requires '\n' !in a
    ensures '\n' in a + "\n" + b
    ensures IndexOf(a + "\n" + b, '\n') == |a|
    ensures (a + "\n" + b)[..|a|] == a && (a + "\n" + b)[|a| + 1..] == b
  {
    var s := a + "\n" + b;
    assert s[|a|] == '\n';
    assert s[..|a|] == a;
  }

  /** Parts and a separator without `c` join into a text without `c`. */
  lemma {:induction false} JoinWithout(parts: seq<string>, sep: string, c: char)
    requires c !in sep && forall i :: 0 <= i < |parts| ==> c !in parts[i]
    ensures c !in Join(parts, sep)
  {
    if |parts| > 1 {
      JoinWithout(parts[1..], sep, c);
    }
  }
}
