/**
 * The parsing body of `loadCSVData`: what happens to the fetched text before
 * the completion callback. The text is split into lines, blank lines are
 * dropped, a first line holding an `x` is taken for a header and dropped, and
 * every remaining line with at least two comma-separated fields contributes
 * its first field to `x` and its second to `y`, through `parseFloat`.
 */
module Loader {
  import opened JsString

  datatype Option<T> = None | Some(value: T)

  /** The first two fields of a kept line, as text, before `parseFloat`. */
  datatype Row = Row(xField: string, yField: string)

  /** The object `{ x, y }` handed to the callback. */
  datatype Dataset = Dataset(x: seq<real>, y: seq<real>)

  /** How the promise chain ends: the callback receives the parsed dataset, or
      `lines[0].toLowerCase()` throws on an empty `lines`, the error is caught
      and logged, and the callback is never invoked. */
  datatype LoadOutcome = Loaded(data: Dataset) | Failed

  /** `text.split("\n")` */
  function Lines(text: string): seq<string>
  {
    Split(text, '\n')
  }

  /** `line.trim() === ""` */
  predicate IsBlank(line: string)
  {
    Trim(line) == ""
  }

  /** `lines.filter(line => line.trim() !== "")`: the non-blank lines, in order. */
  function NonBlank(lines: seq<string>): (r: seq<string>)
    ensures |r| <= |lines|
    ensures forall k :: 0 <= k < |r| ==> !IsBlank(r[k])
  {
    if |lines| == 0 then []
    else (if IsBlank(lines[0]) then [] else [lines[0]]) + NonBlank(lines[1..])
  }

  /** `line.toLowerCase().includes("x")`, the header test. */
  predicate HasHeaderMark(line: string)
  {
    'x' in ToLower(line)
  }

  /** The lines the `forEach` visits: the non-blank lines, less the first one
      when it carries the header mark; `None` when there is no non-blank line,
      where `lines[0]` is undefined and the header test throws. */
  function KeptLines(text: string): Option<seq<string>>
  {
    var lines := NonBlank(Lines(text));
    if |lines| == 0 then None
    else if HasHeaderMark(lines[0]) then Some(lines[1..])
    else Some(lines)
  }

  /** What one visited line contributes: its first two fields when
      `line.split(",")` has at least two pieces, and nothing otherwise. */
  function LineRow(line: string): seq<Row>
  {
    var parts := Split(line, ',');
    if |parts| >= 2 then [Row(parts[0], parts[1])] else []
  }

  /** The rows the `forEach` pushes, line after line. */
  function Rows(lines: seq<string>): seq<Row>
  {
    if |lines| == 0 then []
    else Rows(lines[..|lines| - 1]) + LineRow(lines[|lines| - 1])
  }

  /** The rows parsed from the whole text, or `None` where the parse throws. */
  function ParsedRows(text: string): Option<seq<Row>>
  {
    match KeptLines(text)
    case None => None
    case Some(lines) => Some(Rows(lines))
  }

  /** The dataset built from the rows: `x` and `y` are `parseFloat` of the
      first and second fields, index by index. */
  function ToDataset(rows: seq<Row>, parseFloat: string -> real): (d: Dataset)
    ensures |d.x| == |d.y| == |rows|
  {
    Dataset(seq(|rows|, k requires 0 <= k < |rows| => parseFloat(rows[k].xField)),
            seq(|rows|, k requires 0 <= k < |rows| => parseFloat(rows[k].yField)))
  }

  /** The body of the `.then(text => ...)` step of `loadCSVData`, with
      `parseFloat` given as a parameter. */
  method ParseCsv(text: string, parseFloat: string -> real) returns (outcome: LoadOutcome)
    ensures outcome.Failed? <==> ParsedRows(text).None?
    ensures outcome.Loaded? ==> |outcome.data.x| == |outcome.data.y|
    ensures outcome.Loaded? ==> outcome.data == ToDataset(ParsedRows(text).value, parseFloat)
  {
    var lines := NonBlank(Lines(text));
    if |lines| == 0 {
      return Failed;
    }
    if HasHeaderMark(lines[0]) {
      lines := lines[1..];
    }
    var x: seq<real> := [];
    var y: seq<real> := [];
    var i := 0;
    while i < |lines|
      invariant 0 <= i <= |lines|
      invariant |x| == |y| == |Rows(lines[..i])|
      invariant forall k :: 0 <= k < |x| ==> x[k] == parseFloat(Rows(lines[..i])[k].xField)
      invariant forall k :: 0 <= k < |y| ==> y[k] == parseFloat(Rows(lines[..i])[k].yField)
    {
      var parts := Split(lines[i], ',');
      if |parts| >= 2 {
        x := x + [parseFloat(parts[0])];
        y := y + [parseFloat(parts[1])];
      }
      assert lines[..i + 1][..i] == lines[..i];
      i := i + 1;
    }
    assert lines[..i] == lines;
    outcome := Loaded(Dataset(x, y));
  }

  /** Rows come out in file order: the rows of two runs of lines are the rows
      of the first run followed by those of the second. */
  lemma {:induction false} RowsAppend(a: seq<string>, b: seq<string>)
    ensures Rows(a + b) == Rows(a) + Rows(b)
    decreases |b|
  {
    if |b| == 0 {
      assert a + b == a;
    } else {
      var b' := b[..|b| - 1];
      RowsAppend(a, b');
      assert (a + b)[..|a + b| - 1] == a + b';
      assert Rows(b) == Rows(b') + LineRow(b[|b| - 1]);
    }
  }

  /** The number of lines that hold a comma. */
  function CommaLines(lines: seq<string>): nat
  {
    if |lines| == 0 then 0
    else (if ',' in lines[0] then 1 else 0) + CommaLines(lines[1..])
  }

  /** A line contributes one row exactly when it holds a comma. */
  lemma LineRowCount(line: string)
    ensures |LineRow(line)| == (if ',' in line then 1 else 0)
  {
    SplitHasTwoPieces(line, ',');
  }

  /** There is one row per line that has at least two comma-separated fields. */
  lemma {:induction false} RowsCount(lines: seq<string>)
    ensures |Rows(lines)| == CommaLines(lines)
    decreases |lines|
  {
    if |lines| > 0 {
      RowsCount(lines[1..]);
      RowsAppend([lines[0]], lines[1..]);
      assert [lines[0]] + lines[1..] == lines;
      assert Rows([lines[0]]) == Rows([]) + LineRow(lines[0]);
      LineRowCount(lines[0]);
    }
  }

  /** A line made of fields is read as its first two fields; the fields after
      the second are ignored. */
  lemma LineRowIgnoresLaterFields(line: string, fields: seq<string>)
    requires |fields| >= 2 && line == Join(fields, ',')
    requires forall k :: 0 <= k < |fields| ==> ',' !in fields[k]
    ensures LineRow(line) == [Row(fields[0], fields[1])]
  {
    SplitJoin(fields, ',');
  }

  /** A blank line holds no comma, so it contributes no row. */
  lemma BlankLineHasNoRow(line: string)
    requires IsBlank(line)
    ensures LineRow(line) == []
  {
    TrimEmptyIff(line);
    LineRowCount(line);
  }

  /** Dropping the blank lines changes no row. */
  lemma {:induction false} RowsIgnoreBlankLines(lines: seq<string>)
    ensures Rows(NonBlank(lines)) == Rows(lines)
    decreases |lines|
  {
    if |lines| > 0 {
      var head := if IsBlank(lines[0]) then [] else [lines[0]];
      RowsIgnoreBlankLines(lines[1..]);
      RowsAppend(head, NonBlank(lines[1..]));
      RowsAppend([lines[0]], lines[1..]);
      assert [lines[0]] + lines[1..] == lines;
      assert Rows([lines[0]]) == Rows([]) + LineRow(lines[0]);
      if IsBlank(lines[0]) {
        BlankLineHasNoRow(lines[0]);
      }
    }
  }

  /** The non-blank lines of two runs of lines. */
  lemma {:induction false} NonBlankAppend(a: seq<string>, b: seq<string>)
    ensures NonBlank(a + b) == NonBlank(a) + NonBlank(b)
    decreases |a|
  {
    if |a| == 0 {
      assert a + b == b;
    } else {
      NonBlankAppend(a[1..], b);
      var head := if IsBlank(a[0]) then [] else [a[0]];
      assert (a + b)[0] == a[0] && (a + b)[1..] == a[1..] + b;
      assert NonBlank(a + b) == head + NonBlank(a[1..] + b);
    }
  }

  /** No line survives the filter exactly when every line is blank. */
  lemma {:induction false} NonBlankEmptyIff(lines: seq<string>)
    ensures NonBlank(lines) == [] <==> forall k :: 0 <= k < |lines| ==> IsBlank(lines[k])
    decreases |lines|
  {
    if |lines| > 0 {
      NonBlankEmptyIff(lines[1..]);
      if forall k :: 0 <= k < |lines[1..]| ==> IsBlank(lines[1..][k]) {
        if IsBlank(lines[0]) {
          forall k | 0 <= k < |lines| ensures IsBlank(lines[k]) {
            if k > 0 {
              assert lines[k] == lines[1..][k - 1];
            }
          }
        }
      } else {
        var k :| 0 <= k < |lines[1..]| && !IsBlank(lines[1..][k]);
        assert lines[k + 1] == lines[1..][k];
      }
    }
  }

  /** The header rule, for the first non-blank line `Lines(text)[j]`: when it
      holds an `x` or an `X` it is dropped and every later line keeps its row;
      otherwise no line loses its row. */
  lemma HeaderRule(text: string, j: nat)
    requires j < |Lines(text)| && !IsBlank(Lines(text)[j])
    requires forall i :: 0 <= i < j ==> IsBlank(Lines(text)[i])
    ensures ('x' in Lines(text)[j] || 'X' in Lines(text)[j]) ==>
              ParsedRows(text) == Some(Rows(Lines(text)[j + 1..]))
    ensures !('x' in Lines(text)[j] || 'X' in Lines(text)[j]) ==>
              ParsedRows(text) == Some(Rows(Lines(text)))
  {
    var ls := Lines(text);
    assert ls == ls[..j] + ls[j..];
    NonBlankAppend(ls[..j], ls[j..]);
    NonBlankEmptyIff(ls[..j]);
    assert ls[j..][1..] == ls[j + 1..];
    assert NonBlank(ls) == [ls[j]] + NonBlank(ls[j + 1..]);
    assert NonBlank(ls)[1..] == NonBlank(ls[j + 1..]);
    LowerHasX(ls[j]);
    RowsIgnoreBlankLines(ls[j + 1..]);
    RowsIgnoreBlankLines(ls);
  }

  /** Every character of `Join(parts, sep)` is whitespace exactly when every
      character of every part is, for a whitespace separator. */
  lemma {:induction false} JoinAllWhitespace(parts: seq<string>, sep: char)
    requires IsWhitespace(sep)
    ensures AllWhitespace(Join(parts, sep)) <==>
              forall k :: 0 <= k < |parts| ==> AllWhitespace(parts[k])
    decreases |parts|
  {
    if |parts| > 1 {
      JoinAllWhitespace(parts[1..], sep);
      var rest := Join(parts[1..], sep);
      AllWhitespaceAppend(parts[0] + [sep], rest);
      AllWhitespaceAppend(parts[0], [sep]);
      assert forall k :: 1 <= k < |parts| ==> parts[k] == parts[1..][k - 1];
    }
  }

  /** Loading fails, with the callback never invoked, exactly when the text
      is empty or made only of whitespace and line breaks. */
  lemma LoadFailsIffBlankText(text: string)
    ensures ParsedRows(text).None? <==> AllWhitespace(text)
  {
    var ls := Lines(text);
    NonBlankEmptyIff(ls);
    JoinSplit(text, '\n');
    JoinAllWhitespace(ls, '\n');
    forall k | 0 <= k < |ls| ensures IsBlank(ls[k]) <==> AllWhitespace(ls[k]) {
      TrimEmptyIff(ls[k]);
    }
  }

  /** A header line, a blank line and a line with a third field:
      `"x,y\n1,2\n\n3,4,5\n"` gives the rows (1, 2) and (3, 4). */
  lemma ParseExample(text: string)
    requires text == "x,y\n1,2\n\n3,4,5\n"
    ensures ParsedRows(text) == Some([Row("1", "2"), Row("3", "4")])
  {
    ExampleLines(text);
    var ls := Lines(text);
    assert !IsBlank(ls[0]) by {
      TrimEmptyIff(ls[0]);
      assert !IsWhitespace(ls[0][0]);
    }
    HeaderRule(text, 0);
    LowerHasX(ls[0]);
    assert 'x' == ls[0][0];
    assert ls[1..] == ["1,2", "", "3,4,5", ""];
    ExampleRows();
  }

  lemma ExampleLines(text: string)
    requires text == "x,y\n1,2\n\n3,4,5\n"
    ensures Lines(text) == ["x,y", "1,2", "", "3,4,5", ""]
  {
    var ls := ["x,y", "1,2", "", "3,4,5", ""];
    assert Join(ls, '\n') == text;
    SplitJoin(ls, '\n');
  }

  lemma ExampleLineRows()
    ensures LineRow("1,2") == [Row("1", "2")]
    ensures LineRow("3,4,5") == [Row("3", "4")]
    ensures LineRow("") == []
  {
    assert Join(["1", "2"], ',') == "1,2";
    LineRowIgnoresLaterFields("1,2", ["1", "2"]);
    assert Join(["3", "4", "5"], ',') == "3,4,5";
    LineRowIgnoresLaterFields("3,4,5", ["3", "4", "5"]);
  }

  lemma ExampleRows()
    ensures Rows(["1,2", "", "3,4,5", ""]) == [Row("1", "2"), Row("3", "4")]
  {
    ExampleLineRows();
    var a, b, c := ["1,2"], ["1,2", ""], ["1,2", "", "3,4,5"];
    assert Rows(a) == [Row("1", "2")] by {
      assert a[..0] == [];
    }
    assert Rows(b) == [Row("1", "2")] by {
      assert b[..1] == a;
    }
    assert Rows(c) == [Row("1", "2"), Row("3", "4")] by {
      assert c[..2] == b;
    }
    assert ["1,2", "", "3,4,5", ""][..3] == c;
  }
}
