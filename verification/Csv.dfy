/**
 The team CSV printer and line splitter (quoting as in section 2 of RFC 4180), with
 the formula neutraliser applied to every exported cell.
 */
module Csv {
  import opened Text

  // /^\s*[=+\-@\t\r]/
  predicate StartsFormula(s: string) {
    s != [] && (s[0] in "=+-@\t\r" || (JsSpace(s[0]) && StartsFormula(s[1..])))
  }

  predicate Digits(s: string) { s != [] && AllDigits(s) }

  // /^[+-]?\d+(\.\d+)?$/
  predicate PlainNumber(s: string) {
    var unsigned := if s != [] && s[0] in "+-" then s[1..] else s;
    var parts := Split(unsigned, '.');
    |parts| <= 2 && forall part :: part in parts ==> Digits(part)
  }

  function Neutralize(value: string): (out: string)
    ensures PlainNumber(value) || !StartsFormula(value) ==> out == value
    ensures !PlainNumber(value) && StartsFormula(value) ==> out == "'" + value && !StartsFormula(out)
  {
    if PlainNumber(value) || !StartsFormula(value) then value else "'" + value
  }

  function DoubleQuotes(s: string): string {
    if s == [] then [] else (if s[0] == '"' then "\"\"" else [s[0]]) + DoubleQuotes(s[1..])
  }

  predicate NeedsQuotes(s: string) { exists c :: c in s && c in "\",\r\n" }

  function Quoted(value: string): string {
    if NeedsQuotes(value) then "\"" + DoubleQuotes(value) + "\"" else value
  }

  function RenderCell(cell: string): string { Quoted(Neutralize(cell)) }

  function RenderRow(row: seq<string>): string {
    if row == [] then ""
    else if |row| == 1 then RenderCell(row[0]) else RenderCell(row[0]) + "," + RenderRow(row[1..])
  }

  function ToCsv(rows: seq<seq<string>>): string {
    if rows == [] then ""
    else if |rows| == 1 then RenderRow(rows[0])
    else RenderRow(rows[0]) + "\n" + ToCsv(rows[1..])
  }

  // The cells still to come when the splitter stands before `line` with the given partial cell.
  function Scan(line: string, current: string, quoted: bool): seq<string>
    decreases |line|
  {
    if line == [] then [Trim(JsSpace, current)]
    else if line[0] == '"' then
      if quoted && |line| > 1 && line[1] == '"' then Scan(line[2..], current + "\"", true)
      else Scan(line[1..], current, !quoted)
    else if line[0] == ',' && !quoted then [Trim(JsSpace, current)] + Scan(line[1..], "", false)
    else Scan(line[1..], current + [line[0]], quoted)
  }

  method SplitCsvLine(line: string) returns (cells: seq<string>)
    ensures cells == Scan(line, "", false)
  {
    cells := [];
    var current, inQuotes, i := "", false, 0;
    while i < |line|
      invariant 0 <= i <= |line|
      invariant cells + Scan(line[i..], current, inQuotes) == Scan(line, "", false)
    {
      var c := line[i];
      ghost var rest := line[i..];
      assert rest[1..] == line[i + 1..];
      if c == '"' {
        if inQuotes && i + 1 < |line| && line[i + 1] == '"' {
          assert rest[1] == line[i + 1] && rest[2..] == line[i + 2..];
          current := current + "\"";
          i := i + 1;
        } else {
          inQuotes := !inQuotes;
        }
      } else if c == ',' && !inQuotes {
        var cell := Trim(JsSpace, current);
        assert cells + ([cell] + Scan(line[i + 1..], "", false)) == cells + [cell] + Scan(line[i + 1..], "", false);
        cells := cells + [cell];
        current := "";
      } else {
        current := current + [c];
      }
      i := i + 1;
    }
    cells := cells + [Trim(JsSpace, current)];
  }

  // ---------------------------------------------------------------- the round trip

  lemma {:induction false} ScanPlain(value: string, rest: string, current: string)
    requires '"' !in value && ',' !in value
    ensures Scan(value + rest, current, false) == Scan(rest, current + value, false)
    decreases |value|
  {
    if value == [] {
      assert value + rest == rest && current + value == current;
    } else {
      ScanPlain(value[1..], rest, current + [value[0]]);
      assert (value + rest)[1..] == value[1..] + rest;
      assert current + [value[0]] + value[1..] == current + value;
    }
  }

  lemma {:induction false} ScanQuoted(value: string, rest: string, current: string)
    requires rest == [] || rest[0] != '"'
    ensures Scan(DoubleQuotes(value) + "\"" + rest, current, true) == Scan(rest, current + value, false)
    decreases |value|
  {
    var line := DoubleQuotes(value) + "\"" + rest;
    if value == [] {
      assert line[1..] == rest && current + value == current;
    } else {
      var tail := DoubleQuotes(value[1..]) + "\"" + rest;
      ScanQuoted(value[1..], rest, current + [value[0]]);
      assert current + [value[0]] + value[1..] == current + value;
      if value[0] == '"' {
        assert line == "\"\"" + tail;
        assert line[2..] == tail;
      } else {
        assert line == [value[0]] + tail;
        assert line[1..] == tail;
      }
    }
  }

  lemma ScanValue(value: string, rest: string)
    requires rest == [] || rest[0] == ','
    ensures Scan(Quoted(value) + rest, "", false) == Scan(rest, value, false)
  {
    assert "" + value == value;
    if NeedsQuotes(value) {
      var body := DoubleQuotes(value) + "\"" + rest;
      assert Quoted(value) + rest == "\"" + body;
      assert ("\"" + body)[1..] == body;
      ScanQuoted(value, rest, "");
    } else {
      ScanPlain(value, rest, "");
    }
  }

  function ImportedCell(cell: string): string { Trim(JsSpace, Neutralize(cell)) }

  function ImportedRow(row: seq<string>): seq<string> {
    seq(|row|, i requires 0 <= i < |row| => ImportedCell(row[i]))
  }

  lemma ImportedRowStep(row: seq<string>)
    requires row != []
    ensures ImportedRow(row) == [ImportedCell(row[0])] + ImportedRow(row[1..])
  {
    var all, rest := ImportedRow(row), ImportedRow(row[1..]);
    assert forall i :: 0 < i < |row| ==> row[i] == row[1..][i - 1];
    assert forall i :: 0 < i < |row| ==> all[i] == rest[i - 1];
  }

  lemma ScanFirstCell(cell: string, tail: string)
    ensures Scan(RenderCell(cell) + ("," + tail), "", false) == [ImportedCell(cell)] + Scan(tail, "", false)
  {
    ScanValue(Neutralize(cell), "," + tail);
    assert ("," + tail)[1..] == tail;
  }

  lemma ScanOnlyCell(cell: string)
    ensures Scan(RenderCell(cell), "", false) == [ImportedCell(cell)]
  {
    ScanValue(Neutralize(cell), "");
    assert RenderCell(cell) + "" == RenderCell(cell);
  }

  lemma {:induction false} ScanRow(row: seq<string>)
    requires row != []
    ensures Scan(RenderRow(row), "", false) == ImportedRow(row)
  {
    ImportedRowStep(row);
    if |row| == 1 {
      ScanOnlyCell(row[0]);
    } else {
      ScanFirstCell(row[0], RenderRow(row[1..]));
      ScanRow(row[1..]);
      RenderRowStep(row);
    }
  }

  lemma RenderRowStep(row: seq<string>)
    requires |row| > 1
    ensures RenderRow(row) == RenderCell(row[0]) + ("," + RenderRow(row[1..]))
  {
    var first, rest := RenderCell(row[0]), RenderRow(row[1..]);
    JoinAssociates(first, rest);
  }

  lemma JoinAssociates(first: string, rest: string)
    ensures first + "," + rest == first + ("," + rest)
  {
  }

  // Splitting a printed row gives every cell back, neutralised and trimmed. An empty row comes back as one empty cell.
  method PrintThenSplit(row: seq<string>) returns (cells: seq<string>)
    ensures row == [] ==> cells == [""]
    ensures row != [] ==> |cells| == |row|
    ensures row != [] ==> forall i :: 0 <= i < |row| ==> cells[i] == Trim(JsSpace, Neutralize(row[i]))
  {
    if row != [] {
      ScanRow(row);
    }
    cells := SplitCsvLine(ToCsv([row]));
  }

  // ---------------------------------------------------------------- which cells are harmless

  // After white space only, one of the trigger characters.
  ghost predicate TriggerAt(s: string, k: nat) {
    k < |s| && s[k] in "=+-@\t\r" && forall j :: 0 <= j < k ==> JsSpace(s[j])
  }

  lemma {:induction false} StartsFormulaMeans(s: string)
    ensures StartsFormula(s) <==> exists k: nat :: TriggerAt(s, k)
  {
    if s != [] {
      StartsFormulaMeans(s[1..]);
      if s[0] in "=+-@\t\r" {
        assert TriggerAt(s, 0);
      }
      if exists k: nat :: TriggerAt(s[1..], k) {
        var k: nat :| TriggerAt(s[1..], k);
        assert JsSpace(s[0]) ==> TriggerAt(s, k + 1) by {
          assert forall j :: 0 < j < k + 1 ==> s[j] == s[1..][j - 1];
        }
      }
      if exists k: nat :: TriggerAt(s, k) {
        var k: nat :| TriggerAt(s, k);
        if k > 0 {
          assert TriggerAt(s[1..], k - 1);
        }
      }
    }
  }

  // An integer with or without a sign is a plain number, and so is one with a fraction.
  lemma IntegersAndFractions(sign: string, whole: string, fraction: string)
    requires sign in ["", "+", "-"] && Digits(whole) && Digits(fraction)
    ensures PlainNumber(sign + whole) && PlainNumber(sign + whole + "." + fraction)
  {
    NoSeparator(whole);
    NoSeparator(fraction);
    SplitWithoutSeparator(whole, '.');
    SplitWithoutSeparator(fraction, '.');
    SplitAtSeparator(whole, '.', fraction);
    Unsigned(sign, whole);
    assert whole + ['.'] + fraction == whole + "." + fraction;
    assert sign + whole + "." + fraction == sign + (whole + "." + fraction);
    Unsigned(sign, whole + "." + fraction);
  }

  lemma NoSeparator(digits: string)
    requires Digits(digits)
    ensures '.' !in digits && digits[0] !in "+-"
  {
    assert digits[0] in digits;
  }

  lemma Unsigned(sign: string, rest: string)
    requires sign in ["", "+", "-"] && rest != [] && rest[0] !in "+-"
    ensures (if (sign + rest)[0] in "+-" then (sign + rest)[1..] else sign + rest) == rest
  {
    assert sign == "" || |sign| == 1;
  }

  // Nothing else is: a plain number is a sign, digits and at most one fraction.
  lemma PlainNumberMeans(s: string) returns (sign: string, whole: string, fraction: string)
    requires PlainNumber(s)
    ensures sign in ["", "+", "-"] && Digits(whole) && (fraction == "" || Digits(fraction))
    ensures s == sign + (whole + if fraction == "" then "" else "." + fraction)
  {
    if s != [] && s[0] in "+-" {
      sign := [s[0]];
      whole, fraction := UnsignedMeans(s[1..]);
    } else {
      sign := "";
      whole, fraction := UnsignedMeans(s);
    }
  }

  lemma UnsignedMeans(unsigned: string) returns (whole: string, fraction: string)
    requires var parts := Split(unsigned, '.'); |parts| <= 2 && forall part :: part in parts ==> Digits(part)
    ensures Digits(whole) && (fraction == "" || Digits(fraction))
    ensures unsigned == whole + if fraction == "" then "" else "." + fraction
  {
    SplitPieces(unsigned, '.');
    var parts := Split(unsigned, '.');
    whole := parts[0];
    fraction := "";
    if |parts| == 2 {
      fraction := parts[1];
      assert Digits(fraction);
      assert whole + "." + fraction == whole + ("." + fraction);
    }
  }

  // A harmless cell is printed as it is, in quotes exactly if it holds a quote, a comma or a line break.
  lemma RendersPlain(cell: string)
    requires !StartsFormula(cell)
    ensures (forall c :: c in cell ==> c !in "\",\r\n") ==> RenderCell(cell) == cell
    ensures (exists c :: c in cell && c in "\",\r\n") ==> RenderCell(cell) == "\"" + DoubleQuotes(cell) + "\""
  {
  }

  // A file is its rows in order, with line feeds between them and none after the last.
  lemma {:induction false} ToCsvLines(rows: seq<seq<string>>, row: seq<string>)
    requires rows != []
    ensures ToCsv(rows + [row]) == ToCsv(rows) + "\n" + RenderRow(row)
  {
    var all := rows + [row];
    assert all[0] == rows[0] && all[1..] == rows[1..] + [row];
    if |rows| == 1 {
      assert all[1..] == [row];
    } else {
      ToCsvLines(rows[1..], row);
      LineAssociates(RenderRow(rows[0]), ToCsv(rows[1..]), RenderRow(row));
    }
  }

  lemma LineAssociates(first: string, middle: string, last: string)
    ensures first + "\n" + (middle + "\n" + last) == first + "\n" + middle + "\n" + last
  {
  }
}
