/** The CSV export of the table (src/TicData.js, exportToCSV): a header line, then one line per tic. */
module TicExport {
  import opened Text
  import opened TicFilters

  /** The column titles. */
  const Header: seq<string> := ["Date", "Time of Day", "Location", "Intensity"]

  /** How the browser prints a timestamp (`toLocaleDateString`) and a number. */
  datatype Printer = Printer(dateText: int -> string, numberText: real -> string)

  /** The four cells of one tic's line. */
  function Fields(p: Printer, t: Tic): seq<string>
  {
    [p.dateText(t.date), t.timeOfDay, t.location, p.numberText(t.intensity)]
  }

  function CsvLine(p: Printer, t: Tic): string
  {
    Join(Fields(p, t), ',')
  }

  /** The lines `csvRows` holds once the tics of `data` are pushed. */
  function CsvLines(data: seq<Tic>, p: Printer): seq<string>
  {
    if |data| == 0 then [Join(Header, ',')]
    else CsvLines(data[..|data| - 1], p) + [CsvLine(p, data[|data| - 1])]
  }

  /** No cell of the tic holds the character `c`. */
  predicate CellsFree(p: Printer, t: Tic, c: char)
  {
    forall f :: f in Fields(p, t) ==> c !in f
  }

  /** The text put in the downloaded file: the lines joined by newlines. */
  method ExportToCsv(data: seq<Tic>, p: Printer) returns (csvData: string)
    ensures csvData == Join(CsvLines(data, p), '\n')
    ensures (forall t :: t in data ==> CellsFree(p, t, '\n')) ==> |Split(csvData, '\n')| == |data| + 1
  {
    var csvRows := [Join(Header, ',')];
    var i := 0;
    while i < |data|
      invariant 0 <= i <= |data|
      invariant csvRows == CsvLines(data[..i], p)
    {
      csvRows := csvRows + [CsvLine(p, data[i])];
      assert data[..i + 1][..i] == data[..i];
      i := i + 1;
    }
    assert data[..i] == data;
    csvData := Join(csvRows, '\n');
    if forall t :: t in data ==> CellsFree(p, t, '\n') {
      CsvRoundTrip(data, p);
      CsvLinesShape(data, p);
    }
  }

  /** The header line reads `Date,Time of Day,Location,Intensity`. */
  lemma HeaderLine()
    ensures Join(Header, ',') == "Date,Time of Day,Location,Intensity"
  {
  }

  /** One line more than there are tics: the header line first, then each tic in table order. */
  lemma {:induction false} CsvLinesShape(data: seq<Tic>, p: Printer)
    ensures |CsvLines(data, p)| == |data| + 1
    ensures CsvLines(data, p)[0] == Join(Header, ',')
    ensures forall i :: 0 <= i < |data| ==> CsvLines(data, p)[i + 1] == CsvLine(p, data[i])
  {
    if |data| > 0 {
      CsvLinesShape(data[..|data| - 1], p);
    }
  }

  /** A line splits back into its tic's four cells when no cell holds a comma. */
  lemma CsvLineFields(p: Printer, t: Tic)
    requires CellsFree(p, t, ',')
    ensures Split(CsvLine(p, t), ',') == Fields(p, t)
  {
    SplitJoin(Fields(p, t), ',');
  }

  /** The file splits back into its lines when no cell holds a newline. */
  lemma CsvRoundTrip(data: seq<Tic>, p: Printer)
    requires forall t :: t in data ==> CellsFree(p, t, '\n')
    ensures Split(Join(CsvLines(data, p), '\n'), '\n') == CsvLines(data, p)
  {
    var lines := CsvLines(data, p);
    CsvLinesShape(data, p);
    forall line | line in lines
      ensures '\n' !in line
    {
      var i :| 0 <= i < |lines| && lines[i] == line;
      if i > 0 {
        var t := data[i - 1];
        assert t in data;
        NoSeparatorInJoin(Fields(p, t), ',', '\n');
      }
    }
    SplitJoin(lines, '\n');
  }

  /** Joining on one character brings in no other. */
  lemma {:induction false} NoSeparatorInJoin(parts: seq<string>, sep: char, c: char)
    requires c != sep
    requires forall f :: f in parts ==> c !in f
    ensures c !in Join(parts, sep)
  {
    if |parts| > 1 {
      assert parts[0] in parts;
      assert forall f :: f in parts[1..] ==> f in parts;
      NoSeparatorInJoin(parts[1..], sep, c);
    }
  }
}
