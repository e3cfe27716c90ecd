/** CSV rows and fields, in the form of section 2 of RFC 4180. */
module CsvText {
  import opened Whitespace

  // ---- printing ------------------------------------------------------------------------------------

  function DoubleQuotes(s: string): string {
    if s == [] then [] else (if s[0] == '"' then "\"\"" else [s[0]]) + DoubleQuotes(s[1..])
  }

  predicate NeedsQuotes(s: string, delimiter: char) {
    delimiter in s || '"' in s || '\n' in s || '\r' in s
  }

  /** `escapeCsvField`. */
  function Escape(s: string, delimiter: char): string {
    if NeedsQuotes(s, delimiter) then "\"" + DoubleQuotes(s) + "\"" else s
  }

  /** A field is printed as it is if and only if it holds no delimiter, quote or line break. */
  lemma PrintedAsItIs(s: string, delimiter: char)
    ensures Escape(s, delimiter) == s <==> delimiter !in s && '"' !in s && '\n' !in s && '\r' !in s
  {
    if NeedsQuotes(s, delimiter) {
      DoubleQuotesGrows(s);
      assert |Escape(s, delimiter)| > |s|;
    }
  }

  lemma {:induction false} DoubleQuotesGrows(s: string)
    ensures |DoubleQuotes(s)| >= |s|
  {
    if s != [] {
      DoubleQuotesGrows(s[1..]);
    }
  }

  /** `formatRowToCsv`. */
  function FormatRow(fields: seq<string>, delimiter: char): string {
    if fields == [] then ""
    else if |fields| == 1 then Escape(fields[0], delimiter)
    else Escape(fields[0], delimiter) + [delimiter] + FormatRow(fields[1..], delimiter)
  }

  // ---- reading -------------------------------------------------------------------------------------

  /** The fields of the rest of a line, given the field begun and whether inside quotes. */
  function ParseFrom(rest: string, current: string, inQuotes: bool, delimiter: char): seq<string>
    decreases |rest|
  {
    if rest == [] then [current]
    else if inQuotes then
      if rest[0] == '"' then
        if |rest| > 1 && rest[1] == '"' then ParseFrom(rest[2..], current + "\"", true, delimiter)
        else ParseFrom(rest[1..], current, false, delimiter)
      else ParseFrom(rest[1..], current + [rest[0]], true, delimiter)
    else if rest[0] == '"' then ParseFrom(rest[1..], current, true, delimiter)
    else if rest[0] == delimiter then [current] + ParseFrom(rest[1..], "", false, delimiter)
    else ParseFrom(rest[1..], current + [rest[0]], false, delimiter)
  }

  function ParseLine(line: string, delimiter: char): seq<string> {
    ParseFrom(line, "", false, delimiter)
  }

  /** A finished row is kept unless it is blank. */
  function Row(current: string): seq<string> {
    if Trim(current) == [] then [] else [current]
  }

  /** The rows of the rest of the content, given the row begun and whether inside quotes. */
  function SplitFrom(rest: string, current: string, inQuotes: bool): seq<string>
    decreases |rest|
  {
    if rest == [] then Row(current)
    else if rest[0] == '"' then
      if inQuotes && |rest| > 1 && rest[1] == '"' then SplitFrom(rest[2..], current + "\"\"", true)
      else SplitFrom(rest[1..], current + "\"", !inQuotes)
    else if (rest[0] == '\n' || rest[0] == '\r') && !inQuotes then
      Row(current) + SplitFrom(if rest[0] == '\r' && |rest| > 1 && rest[1] == '\n' then rest[2..] else rest[1..], "", false)
    else SplitFrom(rest[1..], current + [rest[0]], inQuotes)
  }

  function SplitRows(content: string): seq<string> {
    SplitFrom(content, "", false)
  }

  /** `parseCsvLine`. */
  method ParseCsvLine(line: string, delimiter: char) returns (result: seq<string>)
    ensures result == ParseLine(line, delimiter)
  {
    result := [];
    var current, inQuotes, i := "", false, 0;
    while i < |line|
      invariant i <= |line|
      invariant result + ParseFrom(line[i..], current, inQuotes, delimiter) == ParseLine(line, delimiter)
    {
      var c := line[i];
      assert line[i..][1..] == line[i + 1..];
      if inQuotes {
        if c == '"' {
          if i + 1 < |line| && line[i + 1] == '"' {
            assert line[i..][2..] == line[i + 2..];
            current := current + "\"";
            i := i + 2;
          } else {
            inQuotes := false;
            i := i + 1;
          }
        } else {
          current := current + [c];
          i := i + 1;
        }
      } else if c == '"' {
        inQuotes := true;
        i := i + 1;
      } else if c == delimiter {
        result := result + [current];
        current := "";
        i := i + 1;
      } else {
        current := current + [c];
        i := i + 1;
      }
    }
    result := result + [current];
  }

  /** `splitCsvRows`. */
  method SplitCsvRows(content: string) returns (rows: seq<string>)
    ensures rows == SplitRows(content)
  {
    rows := [];
    var current, inQuotes, i := "", false, 0;
    while i < |content|
      invariant i <= |content|
      invariant rows + SplitFrom(content[i..], current, inQuotes) == SplitRows(content)
    {
      var c := content[i];
      assert content[i..][1..] == content[i + 1..];
      if i + 1 < |content| {
        assert content[i..][2..] == content[i + 2..];
      }
      if c == '"' {
        if inQuotes && i + 1 < |content| && content[i + 1] == '"' {
          current := current + "\"\"";
          i := i + 1;
        } else {
          inQuotes := !inQuotes;
          current := current + "\"";
        }
      } else if (c == '\n' || c == '\r') && !inQuotes {
        if c == '\r' && i + 1 < |content| && content[i + 1] == '\n' {
          i := i + 1;
        }
        if |Trim(current)| > 0 {
          rows := rows + [current];
        }
        current := "";
      } else {
        current := current + [c];
      }
      i := i + 1;
    }
    if |Trim(current)| > 0 {
      rows := rows + [current];
    }
  }

  // ---- reading back what was printed ---------------------------------------------------------------

  predicate IsDelimiter(c: char) {
    c != '"' && c != '\n' && c != '\r'
  }

  ghost predicate NoQuoteFirst(tail: string) {
    tail != [] ==> tail[0] != '"'
  }

  lemma {:induction false} ParseQuoted(s: string, tail: string, current: string, delimiter: char)
    requires NoQuoteFirst(tail)
    ensures ParseFrom(DoubleQuotes(s) + "\"" + tail, current, true, delimiter) == ParseFrom(tail, current + s, false, delimiter)
  {
    var rest := DoubleQuotes(s) + "\"" + tail;
    if s == [] {
      assert rest[1..] == tail && current + s == current;
    } else {
      ParseQuoted(s[1..], tail, current + [s[0]], delimiter);
      assert current + [s[0]] + s[1..] == current + s;
      var next := DoubleQuotes(s[1..]) + "\"" + tail;
      if s[0] == '"' {
        assert rest == "\"\"" + next && rest[2..] == next;
      } else {
        assert rest == [s[0]] + next && rest[1..] == next;
      }
    }
  }

  lemma {:induction false} ParsePlain(s: string, tail: string, current: string, delimiter: char)
    requires !NeedsQuotes(s, delimiter)
    ensures ParseFrom(s + tail, current, false, delimiter) == ParseFrom(tail, current + s, false, delimiter)
  {
    if s == [] {
      assert s + tail == tail && current + s == current;
    } else {
      assert s[0] in s && forall c :: c in s[1..] ==> c in s;
      ParsePlain(s[1..], tail, current + [s[0]], delimiter);
      assert current + [s[0]] + s[1..] == current + s;
      assert (s + tail)[1..] == s[1..] + tail;
    }
  }

  lemma ParseOpenQuote(rest: string, current: string, delimiter: char)
    ensures ParseFrom("\"" + rest, current, false, delimiter) == ParseFrom(rest, current, true, delimiter)
  {
    assert ("\"" + rest)[1..] == rest;
  }

  lemma ParseEscaped(s: string, tail: string, delimiter: char)
    requires NoQuoteFirst(tail)
    ensures ParseFrom(Escape(s, delimiter) + tail, "", false, delimiter) == ParseFrom(tail, s, false, delimiter)
  {
    assert "" + s == s;
    if NeedsQuotes(s, delimiter) {
      var body := DoubleQuotes(s) + "\"";
      ParseOpenQuote(body + tail, "", delimiter);
      assert Escape(s, delimiter) + tail == "\"" + (body + tail);
      ParseQuoted(s, tail, "", delimiter);
    } else {
      ParsePlain(s, tail, "", delimiter);
    }
  }

  /** Parsing a printed row gives the fields back, whatever they contain. */
  lemma {:induction false} RowRoundTrip(fields: seq<string>, delimiter: char)
    requires fields != [] && IsDelimiter(delimiter)
    ensures ParseLine(FormatRow(fields, delimiter), delimiter) == fields
  {
    var field := Escape(fields[0], delimiter);
    if |fields| == 1 {
      ParseEscaped(fields[0], "", delimiter);
      assert field + "" == field;
    } else {
      var tail := [delimiter] + FormatRow(fields[1..], delimiter);
      assert field + [delimiter] + FormatRow(fields[1..], delimiter) == field + tail;
      ParseEscaped(fields[0], tail, delimiter);
      assert tail[1..] == FormatRow(fields[1..], delimiter);
      RowRoundTrip(fields[1..], delimiter);
    }
  }

  /** A quoted stretch may stand anywhere in a field; the quotes around it go, and doubled ones in it become one. */
  lemma QuotesMayStandAnywhere(a: string, quoted: string, b: string, delimiter: char)
    requires !NeedsQuotes(a, delimiter) && !NeedsQuotes(b, delimiter) && IsDelimiter(delimiter)
    ensures ParseLine(a + ("\"" + (DoubleQuotes(quoted) + "\"" + b)), delimiter) == [a + quoted + b]
  {
    ParsePlain(a, "\"" + (DoubleQuotes(quoted) + "\"" + b), "", delimiter);
    ParseOpenQuote(DoubleQuotes(quoted) + "\"" + b, "" + a, delimiter);
    ParseQuoted(quoted, b, "" + a, delimiter);
    ParsePlain(b, "", "" + a + quoted, delimiter);
    assert b + "" == b && "" + a == a;
  }

  /** A quote that is never closed runs to the end of the line. */
  lemma OpenQuoteRunsOn(a: string, quoted: string, delimiter: char)
    requires !NeedsQuotes(a, delimiter) && '"' !in quoted
    ensures ParseLine(a + ("\"" + quoted), delimiter) == [a + quoted]
  {
    ParsePlain(a, "\"" + quoted, "", delimiter);
    ParseOpenQuote(quoted, "" + a, delimiter);
    ParseInside(quoted, "" + a, delimiter);
    assert "" + a == a;
  }

  lemma {:induction false} ParseInside(s: string, current: string, delimiter: char)
    requires '"' !in s
    ensures ParseFrom(s, current, true, delimiter) == [current + s]
  {
    if s == [] {
      assert current + s == current;
    } else {
      assert s[0] in s && forall c :: c in s[1..] ==> c in s;
      ParseInside(s[1..], current + [s[0]], delimiter);
      assert current + [s[0]] + s[1..] == current + s;
    }
  }

  lemma {:induction false} SplitQuoted(s: string, tail: string, current: string)
    requires NoQuoteFirst(tail)
    ensures SplitFrom(DoubleQuotes(s) + "\"" + tail, current, true) == SplitFrom(tail, current + DoubleQuotes(s) + "\"", false)
  {
    var rest := DoubleQuotes(s) + "\"" + tail;
    if s == [] {
      assert rest[1..] == tail && current + DoubleQuotes(s) + "\"" == current + "\"";
    } else {
      var head := if s[0] == '"' then "\"\"" else [s[0]];
      var next := DoubleQuotes(s[1..]) + "\"" + tail;
      SplitQuoted(s[1..], tail, current + head);
      assert current + head + DoubleQuotes(s[1..]) + "\"" == current + DoubleQuotes(s) + "\"";
      assert rest == head + next && rest[|head|..] == next;
    }
  }

  lemma {:induction false} SplitPlain(s: string, tail: string, current: string)
    requires '"' !in s && '\n' !in s && '\r' !in s
    ensures SplitFrom(s + tail, current, false) == SplitFrom(tail, current + s, false)
  {
    if s == [] {
      assert s + tail == tail && current + s == current;
    } else {
      assert s[0] in s && forall c :: c in s[1..] ==> c in s;
      SplitPlain(s[1..], tail, current + [s[0]]);
      assert current + [s[0]] + s[1..] == current + s;
      assert (s + tail)[1..] == s[1..] + tail;
    }
  }

  lemma SplitOpenQuote(rest: string, current: string)
    ensures SplitFrom("\"" + rest, current, false) == SplitFrom(rest, current + "\"", true)
  {
    assert ("\"" + rest)[1..] == rest;
  }

  lemma SplitEscaped(s: string, tail: string, current: string, delimiter: char)
    requires NoQuoteFirst(tail)
    ensures SplitFrom(Escape(s, delimiter) + tail, current, false) == SplitFrom(tail, current + Escape(s, delimiter), false)
  {
    if NeedsQuotes(s, delimiter) {
      var body := DoubleQuotes(s) + "\"";
      SplitOpenQuote(body + tail, current);
      assert Escape(s, delimiter) + tail == "\"" + (body + tail);
      SplitQuoted(s, tail, current + "\"");
      assert current + "\"" + DoubleQuotes(s) + "\"" == current + Escape(s, delimiter);
    } else {
      SplitPlain(s, tail, current);
    }
  }

  lemma Regroup(a: string, b: string, c: string, d: string)
    ensures a + b + c + d == a + (b + c + d)
  {
  }

  /** The splitter reads across a printed row, line breaks inside its fields included. */
  lemma {:induction false} SplitAcrossRow(fields: seq<string>, tail: string, current: string, delimiter: char)
    requires fields != [] && IsDelimiter(delimiter) && NoQuoteFirst(tail)
    ensures SplitFrom(FormatRow(fields, delimiter) + tail, current, false)
            == SplitFrom(tail, current + FormatRow(fields, delimiter), false)
  {
    var field := Escape(fields[0], delimiter);
    if |fields| == 1 {
      SplitEscaped(fields[0], tail, current, delimiter);
    } else {
      var others := FormatRow(fields[1..], delimiter);
      var rest := [delimiter] + others + tail;
      Regroup(field, [delimiter], others, tail);
      SplitEscaped(fields[0], rest, current, delimiter);
      assert rest[1..] == others + tail;
      SplitAcrossRow(fields[1..], tail, current + field + [delimiter], delimiter);
      Regroup(current, field, [delimiter], others);
    }
  }

  /** `lines.join(lineEnding) + lineEnding`, or nothing for no lines. */
  function Block(lines: seq<string>, lineEnding: string): string {
    if lines == [] then "" else lines[0] + lineEnding + Block(lines[1..], lineEnding)
  }

  predicate IsLineEnding(e: string) {
    e == "\n" || e == "\r\n" || e == "\r"
  }

  function FormatRows(rows: seq<seq<string>>, delimiter: char): (lines: seq<string>)
    ensures |lines| == |rows|
    ensures forall i :: 0 <= i < |rows| ==> lines[i] == FormatRow(rows[i], delimiter)
  {
    seq(|rows|, i requires 0 <= i < |rows| => FormatRow(rows[i], delimiter))
  }

  /** A row that does not look blank. */
  ghost predicate Visible(fields: seq<string>) {
    exists i, k :: 0 <= i < |fields| && 0 <= k < |fields[i]| && !IsSpace(fields[i][k])
  }

  lemma {:induction false} DoubleQuotesKeeps(s: string, c: char)
    requires c in s
    ensures c in DoubleQuotes(s)
  {
    if s[0] != c {
      DoubleQuotesKeeps(s[1..], c);
    }
  }

  lemma {:induction false} VisibleRowIsKept(fields: seq<string>, delimiter: char)
    requires Visible(fields)
    ensures Trim(FormatRow(fields, delimiter)) != []
    ensures exists k :: 0 <= k < |FormatRow(fields, delimiter)| && !IsSpace(FormatRow(fields, delimiter)[k])
  {
    var row := FormatRow(fields, delimiter);
    var i, k :| 0 <= i < |fields| && 0 <= k < |fields[i]| && !IsSpace(fields[i][k]);
    var at: nat;
    if i == 0 {
      var c := fields[0][k];
      assert c in Escape(fields[0], delimiter) by {
        if NeedsQuotes(fields[0], delimiter) {
          DoubleQuotesKeeps(fields[0], c);
        }
      }
      at :| at < |Escape(fields[0], delimiter)| && Escape(fields[0], delimiter)[at] == c;
      assert row[at] == c;
    } else {
      assert fields[1..][i - 1] == fields[i];
      VisibleRowIsKept(fields[1..], delimiter);
      var others := FormatRow(fields[1..], delimiter);
      var j :| 0 <= j < |others| && !IsSpace(others[j]);
      at := |Escape(fields[0], delimiter)| + 1 + j;
      assert row[at] == others[j];
    }
    BlankMeansAllSpace(row);
  }

  lemma {:induction false} NoBreakFirst(fields: seq<string>, delimiter: char)
    requires fields != [] && IsDelimiter(delimiter)
    ensures FormatRow(fields, delimiter) != [] ==> FormatRow(fields, delimiter)[0] != '\n'
  {
    var field := Escape(fields[0], delimiter);
    if field != [] && !NeedsQuotes(fields[0], delimiter) {
      assert field[0] in fields[0];
    }
  }

  lemma BreakAfterRow(row: string, lineEnding: string, rest: string)
    requires IsLineEnding(lineEnding) && Trim(row) != [] && (rest != [] ==> rest[0] != '\n')
    ensures SplitFrom(lineEnding + rest, row, false) == [row] + SplitRows(rest)
  {
    assert (lineEnding + rest)[|lineEnding|..] == rest;
  }

  lemma BlockStartsVisibly(rows: seq<seq<string>>, delimiter: char, lineEnding: string)
    requires IsDelimiter(delimiter) && forall i :: 0 <= i < |rows| ==> Visible(rows[i])
    ensures var text := Block(FormatRows(rows, delimiter), lineEnding); text != [] ==> text[0] != '\n'
  {
    if rows != [] {
      NoBreakFirst(rows[0], delimiter);
      VisibleRowIsKept(rows[0], delimiter);
    }
  }

  /** Splitting a printed block gives its lines back, for each line ending. */
  lemma {:induction false} BlockRoundTrip(rows: seq<seq<string>>, delimiter: char, lineEnding: string)
    requires IsDelimiter(delimiter) && IsLineEnding(lineEnding)
    requires forall i :: 0 <= i < |rows| ==> Visible(rows[i])
    ensures SplitRows(Block(FormatRows(rows, delimiter), lineEnding)) == FormatRows(rows, delimiter)
  {
    if rows == [] {
      assert Trim("") == [];
    } else {
      var lines := FormatRows(rows, delimiter);
      assert lines[1..] == FormatRows(rows[1..], delimiter);
      BlockRoundTrip(rows[1..], delimiter, lineEnding);
      BlockStartsVisibly(rows[1..], delimiter, lineEnding);
      FirstLineReadsBack(rows[0], Block(lines[1..], lineEnding), delimiter, lineEnding);
      assert lines == [lines[0]] + lines[1..];
    }
  }

  lemma FirstLineReadsBack(row: seq<string>, rest: string, delimiter: char, lineEnding: string)
    requires IsDelimiter(delimiter) && IsLineEnding(lineEnding) && Visible(row) && (rest != [] ==> rest[0] != '\n')
    ensures SplitRows(FormatRow(row, delimiter) + lineEnding + rest) == [FormatRow(row, delimiter)] + SplitRows(rest)
  {
    VisibleRowIsKept(row, delimiter);
    BreakAfterRow(FormatRow(row, delimiter), lineEnding, rest);
    RowFromStart(row, lineEnding, rest, delimiter);
  }

  lemma RowFromStart(row: seq<string>, lineEnding: string, rest: string, delimiter: char)
    requires row != [] && IsDelimiter(delimiter) && IsLineEnding(lineEnding)
    ensures SplitRows(FormatRow(row, delimiter) + lineEnding + rest)
            == SplitFrom(lineEnding + rest, FormatRow(row, delimiter), false)
  {
    SplitAcrossRow(row, lineEnding + rest, "", delimiter);
    var line := FormatRow(row, delimiter);
    assert line + lineEnding + rest == line + (lineEnding + rest);
    assert "" + line == line;
  }
}
