/** Fee deduction records as CSV blocks: validation, printing with the default columns, and reading back. */
module FeeCsv {
  import opened Wrappers
  import opened Whitespace
  import opened CsvText
  import opened DecimalText
  import opened Rounding
  import opened Amounts

  datatype FeeError = InvalidAmount | InvalidFeeRate | AmountOutOfRange | FeeExceedsAmount | EmptyData

  datatype FeeRecord = FeeRecord(grossAmount: int, feeRate: int, scale: Option<int>, labelText: Option<string>)

  datatype FeeRow = FeeRow(
    grossAmount: int, feeRate: int, scale: int,
    feeAmount: int, netAmount: int, remainder: int, labelText: Option<string>)

  const DEFAULT_FEE_SCALE := 10_000

  // ---- validation --------------------------------------------------------------------------------

  /** `validateFeeDeductionRecord`, with the computation of `calculateFeeDeduction` in it. */
  function Validate(r: FeeRecord): Result<FeeRow, FeeError> {
    var scale := if r.scale.Some? then r.scale.value else DEFAULT_FEE_SCALE;
    if !InRange(r.grossAmount) then Err(AmountOutOfRange)
    else if !InRange(r.feeRate) then Err(AmountOutOfRange)
    else if r.feeRate < 0 then Err(InvalidFeeRate)
    else if !InRange(scale) then Err(AmountOutOfRange)
    else if scale <= 0 then Err(InvalidAmount)
    else if r.grossAmount < 0 then Err(InvalidAmount)
    else
      var product := r.grossAmount * r.feeRate;
      var fee := TruncDiv(product, scale);
      if fee > r.grossAmount then Err(FeeExceedsAmount)
      else Ok(FeeRow(r.grossAmount, r.feeRate, scale, fee, r.grossAmount - fee, TruncMod(product, scale), r.labelText))
  }

  /** A validated row is non-negative throughout, and conserves the gross amount and the exact product. */
  lemma ValidatedRowsBalance(r: FeeRecord)
    requires Validate(r).Ok?
    ensures var row := Validate(r).value;
            && row.grossAmount == r.grossAmount >= 0 && row.feeRate == r.feeRate >= 0
            && row.scale == (if r.scale.Some? then r.scale.value else 10_000) > 0 && row.labelText == r.labelText
            && row.feeAmount >= 0 && row.netAmount >= 0 && 0 <= row.remainder < row.scale
            && row.feeAmount + row.netAmount == row.grossAmount
            && row.feeAmount * row.scale + row.remainder == row.grossAmount * row.feeRate
  {
    var row := Validate(r).value;
    ProductKeepsSign(row.grossAmount, row.feeRate);
    QuotientKeepsSign(row.grossAmount * row.feeRate, row.scale);
  }

  /** A sound record is refused exactly when its fee would pass its gross amount, and never at a rate up to the scale. */
  lemma RefusedWhenTheFeePassesTheGross(r: FeeRecord)
    requires InRange(r.grossAmount) && r.grossAmount >= 0 && InRange(r.feeRate) && r.feeRate >= 0
    requires var scale := if r.scale.Some? then r.scale.value else DEFAULT_FEE_SCALE; InRange(scale) && scale > 0
    ensures var scale := if r.scale.Some? then r.scale.value else DEFAULT_FEE_SCALE;
            && (Validate(r) == Err(FeeExceedsAmount) <==> r.grossAmount * r.feeRate >= (r.grossAmount + 1) * scale)
            && (Validate(r).Err? ==> r.feeRate > scale)
  {
    var scale := if r.scale.Some? then r.scale.value else DEFAULT_FEE_SCALE;
    FeePassesGross(r.grossAmount, r.feeRate, scale);
  }

  lemma FeePassesGross(gross: int, rate: int, scale: int)
    requires gross >= 0 && rate >= 0 && scale > 0
    ensures TruncDiv(gross * rate, scale) > gross <==> gross * rate >= (gross + 1) * scale
    ensures TruncDiv(gross * rate, scale) > gross ==> rate > scale
  {
    var fee := TruncDiv(gross * rate, scale);
    ProductKeepsSign(gross, rate);
    QuotientKeepsSign(gross * rate, scale);
    if fee > gross {
      ProductsKeepOrder(gross + 1, fee, scale);
    } else {
      ProductsKeepOrder(fee + 1, gross + 1, scale);
      OneMoreTimes(fee, scale);
    }
    if rate <= scale {
      RatesKeepOrder(gross, rate, scale);
    }
  }

  lemma OneMoreTimes(a: int, b: int)
    ensures (a + 1) * b == a * b + b
  {
  }

  lemma ProductKeepsSign(a: int, b: int)
    requires a >= 0 && b >= 0
    ensures a * b >= 0
  {
  }

  lemma QuotientKeepsSign(n: int, d: int)
    requires n >= 0 && d > 0
    ensures TruncDiv(n, d) >= 0 && 0 <= TruncMod(n, d) < d && TruncDiv(n, d) * d + TruncMod(n, d) == n
  {
    TruncDivFacts(n, d);
    DivFacts(n, d);
  }

  /** Which records are refused, and by which error; the amount is looked at before the rate and the scale. */
  lemma RefusalSays(r: FeeRecord)
    ensures var scale, e := if r.scale.Some? then r.scale.value else 10_000, Validate(r);
            && (!InRange(r.grossAmount) || !InRange(r.feeRate) ==> e == Err(AmountOutOfRange))
            && (InRange(r.grossAmount) && InRange(r.feeRate) && r.feeRate < 0 ==> e == Err(InvalidFeeRate))
            && (InRange(r.grossAmount) && InRange(r.feeRate) && r.feeRate >= 0 ==>
                  && (!InRange(scale) ==> e == Err(AmountOutOfRange))
                  && (InRange(scale) && (scale <= 0 || r.grossAmount < 0) ==> e == Err(InvalidAmount))
                  && (InRange(scale) && scale > 0 && r.grossAmount >= 0 ==>
                        (e.Ok? <==> r.grossAmount * r.feeRate < (r.grossAmount + 1) * scale)))
  {
    var scale := if r.scale.Some? then r.scale.value else 10_000;
    if InRange(r.grossAmount) && InRange(r.feeRate) && r.feeRate >= 0 && InRange(scale) && scale > 0 && r.grossAmount >= 0 {
      FeePassesGross(r.grossAmount, r.feeRate, scale);
    }
  }

  /** `/^-?\d+$/` on the trimmed text, and `BigInt`. */
  function ReadInteger(text: string): Option<int> {
    var raw := Trim(text);
    var digits := if raw != [] && raw[0] == '-' then raw[1..] else raw;
    if digits == [] || !AllDigits(digits) then None
    else
      var magnitude: int := ToNat(digits);
      Some(if raw[0] == '-' then -magnitude else magnitude)
  }

  function WriteInteger(n: int): string {
    if n < 0 then "-" + ToText(-n) else ToText(n)
  }

  lemma IntegerRoundTrip(n: int)
    ensures ReadInteger(WriteInteger(n)) == Some(n)
    ensures if n < 0 then WriteInteger(n)[0] == '-' else AllDigits(WriteInteger(n)) && (n > 0 ==> WriteInteger(n)[0] != '0')
    ensures WriteInteger(n) != [] && !IsSpace(WriteInteger(n)[|WriteInteger(n)| - 1])
  {
    var text := WriteInteger(n);
    TrimKeeps(text);
    TextRoundTrip(Abs(n));
  }

  /** A minus sign or none, digits, and white space around them. */
  lemma WrittenIntegerReads(front: string, negative: bool, digits: string, back: string)
    requires AllSpace(front) && AllSpace(back) && AllDigits(digits) && digits != ""
    ensures ReadInteger(front + ((if negative then "-" else "") + digits) + back)
            == Some(if negative then 0 - ToNat(digits) else ToNat(digits))
  {
    hide Trim, ToNat;
    var raw := (if negative then "-" else "") + digits;
    assert IsDigit(digits[0]) && IsDigit(digits[|digits| - 1]);
    assert raw[|raw| - 1] == digits[|digits| - 1] && raw[0] == if negative then '-' else digits[0];
    TrimStrips(front, raw, back);
    assert if negative then raw[1..] == digits else raw == digits && raw[0] != '-';
  }

  /** Nothing else reads as an integer. */
  lemma OnlyWrittenIntegersRead(text: string)
    requires ReadInteger(text).Some?
    ensures exists digits :: digits != "" && AllDigits(digits) && (Trim(text) == digits || Trim(text) == "-" + digits)
  {
    hide Trim;
    var raw := Trim(text);
    var digits := if raw != [] && raw[0] == '-' then raw[1..] else raw;
    assert raw != digits ==> raw == "-" + digits;
  }

  // ---- printing ------------------------------------------------------------------------------------

  predicate HasLabel(rows: seq<FeeRow>) {
    exists i :: 0 <= i < |rows| && rows[i].labelText.Some?
  }

  const NUMBER_COLUMNS: seq<string> := ["grossAmount", "feeRate", "scale", "feeAmount", "netAmount", "remainder"]

  function Columns(labelled: bool): seq<string> {
    if labelled then ["label"] + NUMBER_COLUMNS else NUMBER_COLUMNS
  }

  function NumberCells(row: FeeRow): seq<string> {
    [WriteInteger(row.grossAmount), WriteInteger(row.feeRate), WriteInteger(row.scale),
     WriteInteger(row.feeAmount), WriteInteger(row.netAmount), WriteInteger(row.remainder)]
  }

  function LabelCell(row: FeeRow): string {
    if row.labelText.Some? then row.labelText.value else ""
  }

  function Cells(row: FeeRow, labelled: bool): seq<string> {
    if labelled then [LabelCell(row)] + NumberCells(row) else NumberCells(row)
  }

  /** The cells of the whole block. */
  function Table(rows: seq<FeeRow>, includeHeader: bool): seq<seq<string>> {
    (if includeHeader then [Columns(HasLabel(rows))] else [])
    + seq(|rows|, i requires 0 <= i < |rows| => Cells(rows[i], HasLabel(rows)))
  }

  function BlockText(rows: seq<FeeRow>, delimiter: char, lineEnding: string, includeHeader: bool): string {
    Block(FormatRows(Table(rows, includeHeader), delimiter), lineEnding)
  }

  ghost predicate AllValid(records: seq<FeeRecord>) {
    forall i :: 0 <= i < |records| ==> Validate(records[i]).Ok?
  }

  ghost function ValidRows(records: seq<FeeRecord>): seq<FeeRow>
    requires AllValid(records)
  {
    seq(|records|, i requires 0 <= i < |records| => Validate(records[i]).value)
  }

  method JoinLines(lines: seq<string>, lineEnding: string) returns (text: string)
    ensures text == Block(lines, lineEnding)
  {
    text := "";
    for i := 0 to |lines|
      invariant text + Block(lines[i..], lineEnding) == Block(lines, lineEnding)
    {
      assert lines[i..][1..] == lines[i + 1..];
      text := text + lines[i] + lineEnding;
    }
  }

  /** The first loop of `buildFeeCsvBlock`, which stops at the first bad record. */
  method ValidateAll(records: seq<FeeRecord>) returns (r: Result<seq<FeeRow>, FeeError>)
    ensures r.Ok? <==> AllValid(records)
    ensures r.Ok? ==> r.value == ValidRows(records)
    ensures r.Err? ==> exists i :: 0 <= i < |records| && Validate(records[i]) == Err(r.error) && AllValid(records[..i])
  {
    var rows: seq<FeeRow> := [];
    for i := 0 to |records|
      invariant AllValid(records[..i]) && rows == ValidRows(records[..i])
    {
      var check := Validate(records[i]);
      if check.Err? {
        return Err(check.error);
      }
      rows := rows + [check.value];
    }
    assert records[..|records|] == records;
    return Ok(rows);
  }

  /** The second loop: one line for each row of cells. */
  method PrintRows(table: seq<seq<string>>, delimiter: char) returns (lines: seq<string>)
    ensures lines == FormatRows(table, delimiter)
  {
    lines := [];
    for i := 0 to |table|
      invariant |lines| == i && forall k :: 0 <= k < i ==> lines[k] == FormatRow(table[k], delimiter)
    {
      lines := lines + [FormatRow(table[i], delimiter)];
    }
  }

  /** `buildFeeCsvBlock` with the default columns. */
  method BuildFeeCsvBlock(records: seq<FeeRecord>, delimiter: char, lineEnding: string, includeHeader: bool, allowEmpty: bool)
    returns (r: Result<string, FeeError>)
    ensures r.Ok? <==> AllValid(records) && (records != [] || allowEmpty)
    ensures r.Ok? ==> r.value == BlockText(ValidRows(records), delimiter, lineEnding, includeHeader)
    ensures r.Err? && records != [] ==>
              exists i :: 0 <= i < |records| && Validate(records[i]) == Err(r.error) && AllValid(records[..i])
  {
    if records == [] && !allowEmpty {
      return Err(EmptyData);
    }
    var rows := ValidateAll(records);
    if rows.Err? {
      return Err(rows.error);
    }
    var lines := PrintRows(Table(rows.value, includeHeader), delimiter);
    var text := JoinLines(lines, lineEnding);
    return Ok(text);
  }

  // ---- reading -------------------------------------------------------------------------------------

  /** The texts gathered from one data row; absent scale and label stay absent. */
  datatype Draft = Draft(gross: string, rate: string, scale: Option<string>, labelText: Option<string>)

  const EMPTY_DRAFT := Draft("0", "0", None, None)

  /** One cell under one heading; an empty cell changes nothing. */
  function Assign(d: Draft, header: string, cell: string): Draft {
    if cell == "" then d
    else if header == "grossAmount" then d.(gross := cell)
    else if header == "feeRate" then d.(rate := cell)
    else if header == "scale" then d.(scale := Some(cell))
    else if header == "label" then d.(labelText := Some(cell))
    else d
  }

  /** Headings without a cell read as empty; cells without a heading are ignored. */
  function AssignAll(d: Draft, headers: seq<string>, fields: seq<string>): Draft
    decreases headers
  {
    if headers == [] then d
    else AssignAll(Assign(d, headers[0], if fields == [] then "" else fields[0]), headers[1..],
                   if fields == [] then [] else fields[1..])
  }

  /** The string inputs of the validator: a malformed number is an error of its own kind. */
  function ValidateDraft(d: Draft): Result<FeeRow, FeeError> {
    var gross := ReadInteger(d.gross);
    if gross.None? then Err(InvalidAmount)
    else if !InRange(gross.value) then Err(AmountOutOfRange)
    else
      var rate := ReadInteger(d.rate);
      if rate.None? then Err(InvalidFeeRate)
      else if !InRange(rate.value) then Err(AmountOutOfRange)
      else if rate.value < 0 then Err(InvalidFeeRate)
      else
        var scale := if d.scale.Some? then ReadInteger(d.scale.value) else Some(DEFAULT_FEE_SCALE);
        if scale.None? then Err(InvalidAmount)
        else Validate(FeeRecord(gross.value, rate.value, scale, d.labelText))
  }

  function ParseRow(headers: seq<string>, line: string, delimiter: char): Result<FeeRow, FeeError> {
    ValidateDraft(AssignAll(EMPTY_DRAFT, headers, ParseLine(line, delimiter)))
  }

  /** All the values, or the first error. */
  function Collect<T>(results: seq<Result<T, FeeError>>): Result<seq<T>, FeeError> {
    if results == [] then Ok([])
    else if results[0].Err? then Err(results[0].error)
    else
      var rest := Collect(results[1..]);
      if rest.Err? then rest else Ok([results[0].value] + rest.value)
  }

  function Outcomes(headers: seq<string>, lines: seq<string>, delimiter: char): seq<Result<FeeRow, FeeError>> {
    seq(|lines|, i requires 0 <= i < |lines| => ParseRow(headers, lines[i], delimiter))
  }

  function ParseRows(headers: seq<string>, lines: seq<string>, delimiter: char): Result<seq<FeeRow>, FeeError> {
    Collect(Outcomes(headers, lines, delimiter))
  }

  function TrimAll(headers: seq<string>): seq<string> {
    seq(|headers|, i requires 0 <= i < |headers| => Trim(headers[i]))
  }

  function ParseBlock(content: string, delimiter: char): Result<seq<FeeRow>, FeeError> {
    var lines := SplitRows(content);
    if lines == [] then Ok([])
    else ParseRows(TrimAll(ParseLine(lines[0], delimiter)), lines[1..], delimiter)
  }

  /** The inner loop of `parseFeeCsvBlock`: one data row under the headings. */
  method GatherRow(headers: seq<string>, fields: seq<string>) returns (draft: Draft)
    ensures draft == AssignAll(EMPTY_DRAFT, headers, fields)
  {
    draft := EMPTY_DRAFT;
    for c := 0 to |headers|
      invariant AssignAll(draft, headers[c..], if c <= |fields| then fields[c..] else [])
                == AssignAll(EMPTY_DRAFT, headers, fields)
    {
      var cell := if c < |fields| then fields[c] else "";
      assert headers[c..][1..] == headers[c + 1..];
      if c < |fields| {
        assert fields[c..][1..] == fields[c + 1..];
      }
      draft := Assign(draft, headers[c], cell);
    }
  }

  /** `parseFeeCsvBlock`. */
  method ParseFeeCsvBlock(content: string, delimiter: char) returns (r: Result<seq<FeeRow>, FeeError>)
    ensures r == ParseBlock(content, delimiter)
  {
    var lines := SplitCsvRows(content);
    if lines == [] {
      return Ok([]);
    }
    var header := ParseCsvLine(lines[0], delimiter);
    r := ParseDataRows(TrimAll(header), lines[1..], delimiter);
  }

  method ParseDataRow(headers: seq<string>, line: string, delimiter: char) returns (check: Result<FeeRow, FeeError>)
    ensures check == ParseRow(headers, line, delimiter)
  {
    var fields := ParseCsvLine(line, delimiter);
    var draft := GatherRow(headers, fields);
    check := ValidateDraft(draft);
  }

  /** The outer loop: it stops at the first bad row. */
  method ParseDataRows(headers: seq<string>, lines: seq<string>, delimiter: char) returns (r: Result<seq<FeeRow>, FeeError>)
    ensures r == ParseRows(headers, lines, delimiter)
  {
    var rows: seq<FeeRow> := [];
    ghost var outcomes := Outcomes(headers, lines, delimiter);
    CollectStart(outcomes);
    for k := 0 to |lines|
      invariant Collected(outcomes, k, rows)
    {
      var check := ParseDataRow(headers, lines[k], delimiter);
      assert check == outcomes[k];
      CollectStep(outcomes, k, rows);
      if check.Err? {
        return Err(check.error);
      }
      rows := rows + [check.value];
    }
    CollectEnd(outcomes, rows);
    return Ok(rows);
  }

  lemma CollectStart<T>(outcomes: seq<Result<T, FeeError>>)
    ensures Collected(outcomes, 0, [])
  {
    assert outcomes[0..] == outcomes;
    var all := Collect(outcomes);
    assert all.Ok? ==> [] + all.value == all.value;
  }

  lemma CollectEnd<T>(outcomes: seq<Result<T, FeeError>>, values: seq<T>)
    requires Collected(outcomes, |outcomes|, values)
    ensures Collect(outcomes) == Ok(values)
  {
    assert outcomes[|outcomes|..] == [];
    assert values + [] == values;
  }

  /** The first k outcomes are the given values. */
  ghost predicate Collected<T>(outcomes: seq<Result<T, FeeError>>, k: nat, values: seq<T>) {
    && k <= |outcomes|
    && Collect(outcomes) ==
         var rest := Collect(outcomes[k..]);
         if rest.Err? then rest else Ok(values + rest.value)
  }

  lemma CollectStep<T>(outcomes: seq<Result<T, FeeError>>, k: nat, values: seq<T>)
    requires k < |outcomes| && Collected(outcomes, k, values)
    ensures outcomes[k].Err? ==> Collect(outcomes) == Err(outcomes[k].error)
    ensures outcomes[k].Ok? ==> Collected(outcomes, k + 1, values + [outcomes[k].value])
  {
    assert outcomes[k..][1..] == outcomes[k + 1..];
    if outcomes[k].Ok? {
      var rest := Collect(outcomes[k + 1..]);
      if rest.Ok? {
        assert values + ([outcomes[k].value] + rest.value) == values + [outcomes[k].value] + rest.value;
      }
    }
  }

  /** Either every value, in order, or the error of the first that failed. */
  lemma {:induction false} CollectSays<T>(results: seq<Result<T, FeeError>>)
    ensures var all := Collect(results);
            && (all.Ok? ==> |all.value| == |results| && forall i :: 0 <= i < |results| ==> results[i] == Ok(all.value[i]))
            && (all.Err? ==> exists i :: 0 <= i < |results| && results[i] == Err(all.error) && forall k :: 0 <= k < i ==> results[k].Ok?)
  {
    if results != [] {
      CollectSays(results[1..]);
      if results[0].Ok? && Collect(results[1..]).Err? {
        var i :| 0 <= i < |results[1..]| && results[1..][i] == Err(Collect(results[1..]).error)
                 && forall k :: 0 <= k < i ==> results[1..][k].Ok?;
        forall k | 0 <= k < i + 1 ensures results[k].Ok? {
          assert k > 0 ==> results[1..][k - 1].Ok?;
        }
        assert results[i + 1] == results[1..][i];
      }
    }
  }

  lemma {:induction false} CollectAllOk<T>(outcomes: seq<Result<T, FeeError>>, values: seq<T>)
    requires |outcomes| == |values| && forall i :: 0 <= i < |values| ==> outcomes[i] == Ok(values[i])
    ensures Collect(outcomes) == Ok(values)
  {
    if values != [] {
      CollectAllOk(outcomes[1..], values[1..]);
      assert values == [values[0]] + values[1..];
    }
  }

  // ---- what is read from a row ----------------------------------------------------------------------------

  ghost predicate CellUnder(headers: seq<string>, fields: seq<string>, name: string, c: int) {
    0 <= c < |headers| && c < |fields| && headers[c] == name && fields[c] != ""
  }

  /** The last cell under the heading that is not empty, where there is one. */
  ghost predicate Gathered(headers: seq<string>, fields: seq<string>, name: string, before: Option<string>, after: Option<string>) {
    if exists c :: CellUnder(headers, fields, name, c)
    then exists c :: CellUnder(headers, fields, name, c) && after == Some(fields[c])
                     && forall d :: c < d ==> !CellUnder(headers, fields, name, d)
    else after == before
  }

  /** What a draft holds for a heading. */
  ghost function Slot(d: Draft, name: string): Option<string> {
    if name == "grossAmount" then Some(d.gross)
    else if name == "feeRate" then Some(d.rate)
    else if name == "scale" then d.scale
    else d.labelText
  }

  ghost predicate HasSlot(name: string) {
    name == "grossAmount" || name == "feeRate" || name == "scale" || name == "label"
  }

  lemma AssignFillsSlot(d: Draft, header: string, cell: string, name: string)
    requires HasSlot(name)
    ensures Slot(Assign(d, header, cell), name) == if header == name && cell != "" then Some(cell) else Slot(d, name)
  {
    assert |"grossAmount"| == 11 && |"feeRate"| == 7 && |"scale"| == |"label"| == 5 && "scale"[0] == 's' && "label"[0] == 'l';
  }

  lemma GatheredBehind(headers: seq<string>, fields: seq<string>, name: string, before: Option<string>, after: Option<string>)
    requires headers != []
    requires var cell := if fields == [] then "" else fields[0];
             Gathered(headers[1..], if fields == [] then [] else fields[1..], name,
                      if headers[0] == name && cell != "" then Some(cell) else before, after)
    ensures Gathered(headers, fields, name, before, after)
  {
    var rest := if fields == [] then [] else fields[1..];
    forall c ensures CellUnder(headers[1..], rest, name, c) <==> c >= 0 && CellUnder(headers, fields, name, c + 1) {}
    if c :| CellUnder(headers[1..], rest, name, c) {
      var l :| CellUnder(headers[1..], rest, name, l) && after == Some(rest[l])
               && forall d :: l < d ==> !CellUnder(headers[1..], rest, name, d);
      assert CellUnder(headers, fields, name, l + 1);
      forall d | l + 1 < d ensures !CellUnder(headers, fields, name, d) {
        assert !CellUnder(headers[1..], rest, name, d - 1);
      }
    } else {
      forall d | d > 0 ensures !CellUnder(headers, fields, name, d) {
        assert !CellUnder(headers[1..], rest, name, d - 1);
      }
      assert CellUnder(headers, fields, name, 0) <==> headers[0] == name && fields != [] && fields[0] != "";
    }
  }

  /** Columns may come in any order; empty cells, missing cells and other columns change nothing. */
  lemma {:induction false} DraftHoldsTheCells(d: Draft, headers: seq<string>, fields: seq<string>, name: string)
    requires HasSlot(name)
    ensures Gathered(headers, fields, name, Slot(d, name), Slot(AssignAll(d, headers, fields), name))
    decreases headers
  {
    hide Gathered, Slot, Assign, HasSlot;
    if headers == [] {
      NothingGathered(fields, name, Slot(d, name));
    } else {
      var cell := if fields == [] then "" else fields[0];
      AssignFillsSlot(d, headers[0], cell, name);
      DraftHoldsTheCells(Assign(d, headers[0], cell), headers[1..], if fields == [] then [] else fields[1..], name);
      GatheredBehind(headers, fields, name, Slot(d, name), Slot(AssignAll(d, headers, fields), name));
    }
  }

  lemma NothingGathered(fields: seq<string>, name: string, before: Option<string>)
    ensures Gathered([], fields, name, before, before)
  {
  }

  /** What four inputs come to: the first that is no good decides the error. */
  ghost predicate Yields(gross: string, rate: string, scale: Option<string>, labelText: Option<string>, r: Result<FeeRow, FeeError>) {
    var g, f, s := ReadInteger(gross), ReadInteger(rate), if scale.None? then Some(10_000) else ReadInteger(scale.value);
    if g.None? then r == Err(InvalidAmount)
    else if !InRange(g.value) then r == Err(AmountOutOfRange)
    else if f.None? then r == Err(InvalidFeeRate)
    else if !InRange(f.value) then r == Err(AmountOutOfRange)
    else if f.value < 0 then r == Err(InvalidFeeRate)
    else if s.None? then r == Err(InvalidAmount)
    else
      && r == Validate(FeeRecord(g.value, f.value, s, labelText))
      && (r.Ok? ==> r.value.grossAmount == g.value && r.value.feeRate == f.value && r.value.scale == s.value && r.value.labelText == labelText)
  }

  /** The row read from a line: each of its inputs is the last cell under its heading, or the default. */
  lemma ParsedRowSays(headers: seq<string>, line: string, delimiter: char)
    ensures var fields, r := ParseLine(line, delimiter), ParseRow(headers, line, delimiter);
            exists gross, rate, scale, labelText ::
              && Gathered(headers, fields, "grossAmount", Some("0"), Some(gross)) && Gathered(headers, fields, "feeRate", Some("0"), Some(rate))
              && Gathered(headers, fields, "scale", None, scale) && Gathered(headers, fields, "label", None, labelText)
              && Yields(gross, rate, scale, labelText, r)
  {
    hide Gathered, Yields, ValidateDraft, AssignAll, ParseLine, Slot, HasSlot;
    var fields := ParseLine(line, delimiter);
    var d := AssignAll(EMPTY_DRAFT, headers, fields);
    SlotsAre(d);
    SlotsAre(EMPTY_DRAFT);
    DraftHoldsTheCells(EMPTY_DRAFT, headers, fields, "grossAmount");
    DraftHoldsTheCells(EMPTY_DRAFT, headers, fields, "feeRate");
    DraftHoldsTheCells(EMPTY_DRAFT, headers, fields, "scale");
    DraftHoldsTheCells(EMPTY_DRAFT, headers, fields, "label");
    DraftGivesItsRow(d);
    assert Gathered(headers, fields, "grossAmount", Some("0"), Some(d.gross));
  }

  lemma SlotsAre(d: Draft)
    ensures Slot(d, "grossAmount") == Some(d.gross) && Slot(d, "feeRate") == Some(d.rate)
    ensures Slot(d, "scale") == d.scale && Slot(d, "label") == d.labelText
    ensures HasSlot("grossAmount") && HasSlot("feeRate") && HasSlot("scale") && HasSlot("label")
  {
    assert |"grossAmount"| == 11 && |"feeRate"| == 7 && |"scale"| == |"label"| == 5 && "scale"[0] == 's' && "label"[0] == 'l';
  }

  lemma DraftGivesItsRow(d: Draft)
    ensures Yields(d.gross, d.rate, d.scale, d.labelText, ValidateDraft(d))
  {
    hide ReadInteger;
  }

  // ---- reading back what was printed ---------------------------------------------------------------

  /** What a row becomes on its way through the text: an empty label is no label. */
  function Normal(row: FeeRow): FeeRow {
    if row.labelText == Some("") then row.(labelText := None) else row
  }

  ghost predicate IsValidated(row: FeeRow) {
    Validate(FeeRecord(row.grossAmount, row.feeRate, Some(row.scale), row.labelText)) == Ok(row)
  }

  lemma ValidateIsStable(r: FeeRecord)
    requires Validate(r).Ok?
    ensures IsValidated(Validate(r).value)
  {}

  /** The six number columns put gross, rate and scale in place, and skip what is derived. */
  lemma AssignNumbers(d: Draft, row: FeeRow)
    ensures AssignAll(d, NUMBER_COLUMNS, NumberCells(row))
            == d.(gross := WriteInteger(row.grossAmount), rate := WriteInteger(row.feeRate), scale := Some(WriteInteger(row.scale)))
  {
    var h, f := NUMBER_COLUMNS, NumberCells(row);
    IntegerRoundTrip(row.grossAmount);
    IntegerRoundTrip(row.feeRate);
    IntegerRoundTrip(row.scale);
    var d1 := d.(gross := f[0]);
    var d2 := d1.(rate := f[1]);
    var d3 := d2.(scale := Some(f[2]));
    assert h[1..] == ["feeRate", "scale", "feeAmount", "netAmount", "remainder"] && |f[1..]| == 5;
    assert AssignAll(d, h, f) == AssignAll(d1, h[1..], f[1..]);
    assert h[1..][1..] == ["scale", "feeAmount", "netAmount", "remainder"];
    assert AssignAll(d1, h[1..], f[1..]) == AssignAll(d2, h[1..][1..], f[1..][1..]);
    assert h[1..][1..][1..] == ["feeAmount", "netAmount", "remainder"];
    assert AssignAll(d2, h[1..][1..], f[1..][1..]) == AssignAll(d3, h[1..][1..][1..], f[1..][1..][1..]);
    AssignDerived(d3, f[1..][1..][1..]);
  }

  lemma AssignDerived(d: Draft, f: seq<string>)
    requires |f| == 3
    ensures AssignAll(d, ["feeAmount", "netAmount", "remainder"], f) == d
  {
    var h := ["feeAmount", "netAmount", "remainder"];
    assert h[1..] == ["netAmount", "remainder"] && h[1..][1..] == ["remainder"];
    assert AssignAll(d, h, f) == AssignAll(d, h[1..], f[1..]);
    assert AssignAll(d, h[1..], f[1..]) == AssignAll(d, h[1..][1..], f[1..][1..]);
    assert AssignAll(d, h[1..][1..], f[1..][1..]) == AssignAll(d, [], []);
  }

  /** The draft a printed row reads back as. */
  function DraftOf(row: FeeRow): Draft {
    Draft(WriteInteger(row.grossAmount), WriteInteger(row.feeRate), Some(WriteInteger(row.scale)), Normal(row).labelText)
  }

  lemma CellsAssign(row: FeeRow, labelled: bool)
    requires row.labelText.Some? ==> labelled
    ensures AssignAll(EMPTY_DRAFT, Columns(labelled), Cells(row, labelled)) == DraftOf(row)
  {
    if labelled {
      LabelAssigns(row);
      AssignNumbers(EMPTY_DRAFT.(labelText := Normal(row).labelText), row);
    } else {
      AssignNumbers(EMPTY_DRAFT, row);
    }
  }

  lemma LabelAssigns(row: FeeRow)
    ensures AssignAll(EMPTY_DRAFT, Columns(true), Cells(row, true))
            == AssignAll(EMPTY_DRAFT.(labelText := Normal(row).labelText), NUMBER_COLUMNS, NumberCells(row))
  {
    var h, f := Columns(true), Cells(row, true);
    assert h[1..] == NUMBER_COLUMNS && f[1..] == NumberCells(row);
    assert Assign(EMPTY_DRAFT, h[0], f[0]) == EMPTY_DRAFT.(labelText := Normal(row).labelText);
  }

  lemma DraftReadsBack(row: FeeRow)
    requires IsValidated(row)
    ensures ValidateDraft(DraftOf(row)) == Ok(Normal(row))
  {
    IntegerRoundTrip(row.grossAmount);
    IntegerRoundTrip(row.feeRate);
    IntegerRoundTrip(row.scale);
  }

  lemma RowReadsBack(row: FeeRow, labelled: bool, delimiter: char)
    requires IsDelimiter(delimiter) && IsValidated(row) && (row.labelText.Some? ==> labelled)
    ensures ParseRow(Columns(labelled), FormatRow(Cells(row, labelled), delimiter), delimiter) == Ok(Normal(row))
  {
    RowRoundTrip(Cells(row, labelled), delimiter);
    CellsAssign(row, labelled);
    DraftReadsBack(row);
  }

  function Normals(rows: seq<FeeRow>): seq<FeeRow> {
    seq(|rows|, i requires 0 <= i < |rows| => Normal(rows[i]))
  }

  lemma RowsReadBack(rows: seq<FeeRow>, labelled: bool, lines: seq<string>, delimiter: char)
    requires IsDelimiter(delimiter) && |lines| == |rows|
    requires forall i :: 0 <= i < |rows| ==> IsValidated(rows[i]) && (rows[i].labelText.Some? ==> labelled)
    requires forall i :: 0 <= i < |rows| ==> lines[i] == FormatRow(Cells(rows[i], labelled), delimiter)
    ensures ParseRows(Columns(labelled), lines, delimiter) == Ok(Normals(rows))
  {
    var outcomes := Outcomes(Columns(labelled), lines, delimiter);
    forall i | 0 <= i < |rows| ensures outcomes[i] == Ok(Normals(rows)[i]) {
      RowReadsBack(rows[i], labelled, delimiter);
    }
    CollectAllOk(outcomes, Normals(rows));
  }

  lemma ColumnsAreTrimmed(labelled: bool)
    ensures TrimAll(Columns(labelled)) == Columns(labelled)
    ensures Visible(Columns(labelled))
  {
    var columns := Columns(labelled);
    forall i | 0 <= i < |columns| ensures Trim(columns[i]) == columns[i] {
      TrimKeeps(columns[i]);
    }
    assert !IsSpace(columns[0][0]);
  }

  lemma CellsAreVisible(row: FeeRow, labelled: bool)
    ensures Visible(Cells(row, labelled))
  {
    var cells := Cells(row, labelled);
    var cell := cells[|cells| - 1];
    IntegerRoundTrip(row.remainder);
    assert cell == WriteInteger(row.remainder);
    assert !IsSpace(cells[|cells| - 1][|cell| - 1]);
  }

  lemma TableIsVisible(rows: seq<FeeRow>)
    ensures forall i :: 0 <= i < |Table(rows, true)| ==> Visible(Table(rows, true)[i])
  {
    ColumnsAreTrimmed(HasLabel(rows));
    forall row, labelled ensures Visible(Cells(row, labelled)) {
      CellsAreVisible(row, labelled);
    }
  }

  /**
   Reading back a block printed with its header gives the validated rows, whatever their labels contain,
   for any delimiter but a quote or a line break and for each line ending; only empty labels are lost.
   */
  lemma FeeBlockRoundTrip(records: seq<FeeRecord>, delimiter: char, lineEnding: string)
    requires AllValid(records) && IsDelimiter(delimiter) && IsLineEnding(lineEnding)
    ensures ParseBlock(BlockText(ValidRows(records), delimiter, lineEnding, true), delimiter)
            == Ok(Normals(ValidRows(records)))
  {
    var rows := ValidRows(records);
    var lines := FormatRows(Table(rows, true), delimiter);
    TableIsVisible(rows);
    BlockRoundTrip(Table(rows, true), delimiter, lineEnding);
    HeaderReadsBack(rows, delimiter);
    DataLinesReadBack(records, delimiter);
    assert SplitRows(BlockText(rows, delimiter, lineEnding, true)) == lines;
  }

  lemma HeaderReadsBack(rows: seq<FeeRow>, delimiter: char)
    requires IsDelimiter(delimiter)
    ensures TrimAll(ParseLine(FormatRows(Table(rows, true), delimiter)[0], delimiter)) == Columns(HasLabel(rows))
  {
    RowRoundTrip(Columns(HasLabel(rows)), delimiter);
    ColumnsAreTrimmed(HasLabel(rows));
  }

  lemma RowOfRecord(records: seq<FeeRecord>, i: nat)
    requires AllValid(records) && i < |records|
    ensures var row := ValidRows(records)[i]; IsValidated(row) && (row.labelText.Some? ==> HasLabel(ValidRows(records)))
  {
    ValidateIsStable(records[i]);
  }

  lemma LineOfRow(rows: seq<FeeRow>, delimiter: char, i: nat)
    requires i < |rows|
    ensures var lines := FormatRows(Table(rows, true), delimiter)[1..];
            |lines| == |rows| && lines[i] == FormatRow(Cells(rows[i], HasLabel(rows)), delimiter)
  {
    assert Table(rows, true)[i + 1] == Cells(rows[i], HasLabel(rows));
  }

  lemma DataLinesReadBack(records: seq<FeeRecord>, delimiter: char)
    requires AllValid(records) && IsDelimiter(delimiter)
    ensures var rows := ValidRows(records);
            ParseRows(Columns(HasLabel(rows)), FormatRows(Table(rows, true), delimiter)[1..], delimiter) == Ok(Normals(rows))
  {
    var rows := ValidRows(records);
    var labelled, lines := HasLabel(rows), FormatRows(Table(rows, true), delimiter)[1..];
    forall i | 0 <= i < |rows|
      ensures IsValidated(rows[i]) && (rows[i].labelText.Some? ==> labelled)
      ensures lines[i] == FormatRow(Cells(rows[i], labelled), delimiter)
    {
      RowOfRecord(records, i);
      LineOfRow(rows, delimiter, i);
    }
    RowsReadBack(rows, labelled, lines, delimiter);
  }

  // ---- what a printed block shows ----------------------------------------------------------------------

  /** The cells under this heading, of which there is one at least, write the value. */
  ghost predicate Shows(headings: seq<string>, cells: seq<string>, name: string, value: int) {
    && |cells| == |headings| && name in headings
    && forall c :: 0 <= c < |headings| && headings[c] == name ==> ReadInteger(cells[c]) == Some(value)
  }

  ghost predicate ShowsRow(headings: seq<string>, cells: seq<string>, row: FeeRow) {
    && Shows(headings, cells, "grossAmount", row.grossAmount)
    && Shows(headings, cells, "feeRate", row.feeRate)
    && Shows(headings, cells, "scale", row.scale)
    && Shows(headings, cells, "feeAmount", row.feeAmount)
    && Shows(headings, cells, "netAmount", row.netAmount)
    && Shows(headings, cells, "remainder", row.remainder)
    && (headings[0] == "label" ==> cells[0] == if row.labelText.Some? then row.labelText.value else "")
  }

  /** The headings of a block: the label first where some record has one, then the six figures. */
  ghost function Headings(records: seq<FeeRecord>): seq<string> {
    (if exists i :: 0 <= i < |records| && records[i].labelText.Some? then ["label"] else [])
    + ["grossAmount", "feeRate", "scale", "feeAmount", "netAmount", "remainder"]
  }

  lemma ColumnsDiffer()
    ensures forall i, j :: 0 <= i < j < |NUMBER_COLUMNS| ==> NUMBER_COLUMNS[i] != NUMBER_COLUMNS[j]
  {
    var c := NUMBER_COLUMNS;
    assert |c[0]| == 11 && |c[1]| == 7 && |c[2]| == 5 && |c[3]| == |c[4]| == |c[5]| == 9;
    assert c[3][0] == 'f' && c[4][0] == 'n' && c[5][0] == 'r';
  }

  lemma ShowsAt(headings: seq<string>, cells: seq<string>, k: nat, n: int)
    requires k < |headings| == |cells| && cells[k] == WriteInteger(n)
    requires forall i, j :: 0 <= i < j < |headings| ==> headings[i] != headings[j]
    ensures Shows(headings, cells, headings[k], n)
  {
    hide WriteInteger, ReadInteger;
    IntegerRoundTrip(n);
  }

  lemma NumberCellsShow(row: FeeRow)
    ensures ShowsRow(NUMBER_COLUMNS, NumberCells(row), row)
  {
    hide WriteInteger, Shows;
    ColumnsDiffer();
    ShowsAt(NUMBER_COLUMNS, NumberCells(row), 0, row.grossAmount);
    ShowsAt(NUMBER_COLUMNS, NumberCells(row), 1, row.feeRate);
    ShowsAt(NUMBER_COLUMNS, NumberCells(row), 2, row.scale);
    ShowsAt(NUMBER_COLUMNS, NumberCells(row), 3, row.feeAmount);
    ShowsAt(NUMBER_COLUMNS, NumberCells(row), 4, row.netAmount);
    ShowsAt(NUMBER_COLUMNS, NumberCells(row), 5, row.remainder);
    assert NUMBER_COLUMNS[0][0] == 'g';
  }

  lemma ShowsBehindLabel(headings: seq<string>, cells: seq<string>, labelCell: string, name: string, value: int)
    requires Shows(headings, cells, name, value) && name != "label"
    ensures Shows(["label"] + headings, [labelCell] + cells, name, value)
  {
    var h, f := ["label"] + headings, [labelCell] + cells;
    forall c | 0 <= c < |h| && h[c] == name ensures ReadInteger(f[c]) == Some(value) {
      assert headings[c - 1] == name;
    }
  }

  lemma CellsShow(row: FeeRow, labelled: bool)
    ensures ShowsRow(Columns(labelled), Cells(row, labelled), row)
  {
    hide NUMBER_COLUMNS, NumberCells, Shows;
    NumberCellsShow(row);
    if labelled {
      ShowsBehindLabel(NUMBER_COLUMNS, NumberCells(row), LabelCell(row), "grossAmount", row.grossAmount);
      ShowsBehindLabel(NUMBER_COLUMNS, NumberCells(row), LabelCell(row), "feeRate", row.feeRate);
      ShowsBehindLabel(NUMBER_COLUMNS, NumberCells(row), LabelCell(row), "scale", row.scale);
      ShowsBehindLabel(NUMBER_COLUMNS, NumberCells(row), LabelCell(row), "feeAmount", row.feeAmount);
      ShowsBehindLabel(NUMBER_COLUMNS, NumberCells(row), LabelCell(row), "netAmount", row.netAmount);
      ShowsBehindLabel(NUMBER_COLUMNS, NumberCells(row), LabelCell(row), "remainder", row.remainder);
    }
  }

  lemma RowsHaveCells(row: FeeRow, labelled: bool)
    ensures Columns(labelled) != [] && Cells(row, labelled) != []
  {
  }

  lemma HeadingsAreColumns(records: seq<FeeRecord>)
    requires AllValid(records)
    ensures Columns(HasLabel(ValidRows(records))) == Headings(records)
  {
    var rows := ValidRows(records);
    assert forall i :: 0 <= i < |records| ==> rows[i].labelText == records[i].labelText;
    assert HasLabel(rows) <==> exists i :: 0 <= i < |records| && records[i].labelText.Some? by {
      if HasLabel(rows) {
        var i :| 0 <= i < |rows| && rows[i].labelText.Some?;
        assert records[i].labelText.Some?;
      }
      if i :| 0 <= i < |records| && records[i].labelText.Some? {
        assert rows[i].labelText.Some?;
      }
    }
  }

  lemma TableLines(rows: seq<FeeRow>, includeHeader: bool, delimiter: char, lineEnding: string)
    requires IsDelimiter(delimiter) && IsLineEnding(lineEnding)
    ensures SplitRows(BlockText(rows, delimiter, lineEnding, includeHeader)) == FormatRows(Table(rows, includeHeader), delimiter)
  {
    hide Cells, Columns, Visible, HasLabel, FormatRow;
    TableIsVisible(rows);
    var table, whole := Table(rows, includeHeader), Table(rows, true);
    forall i | 0 <= i < |table| ensures Visible(table[i]) {
      assert table[i] == whole[if includeHeader then i else i + 1];
    }
    BlockRoundTrip(table, delimiter, lineEnding);
  }

  /**
   A block falls into its heading line, if it has one, and a line for each record; the cells of a line are
   the figures of that record, under their headings, and its label.
   */
  lemma BlockShowsTheRecords(records: seq<FeeRecord>, delimiter: char, lineEnding: string, includeHeader: bool, i: nat)
    requires AllValid(records) && IsDelimiter(delimiter) && IsLineEnding(lineEnding) && i < |records|
    ensures var lines := SplitRows(BlockText(ValidRows(records), delimiter, lineEnding, includeHeader));
            var above := if includeHeader then 1 else 0;
            && |lines| == |records| + above
            && (includeHeader ==> ParseLine(lines[0], delimiter) == Headings(records))
            && ShowsRow(Headings(records), ParseLine(lines[i + above], delimiter), Validate(records[i]).value)
  {
    hide ShowsRow, Headings, SplitRows, BlockText, ParseLine, Columns, Cells, FormatRow, HasLabel;
    var rows := ValidRows(records);
    var labelled := HasLabel(rows);
    TableLines(rows, includeHeader, delimiter, lineEnding);
    HeadingsAreColumns(records);
    RowsHaveCells(rows[i], labelled);
    RowRoundTrip(Columns(labelled), delimiter);
    RowRoundTrip(Cells(rows[i], labelled), delimiter);
    CellsShow(rows[i], labelled);
    var table := Table(rows, includeHeader);
    assert table[if includeHeader then i + 1 else i] == Cells(rows[i], labelled);
    assert includeHeader ==> table[0] == Columns(labelled);
  }

  lemma NormalsAreExact(records: seq<FeeRecord>)
    requires AllValid(records)
    ensures Normals(ValidRows(records)) == ValidRows(records)
            <==> forall i :: 0 <= i < |records| ==> records[i].labelText != Some("")
  {
    var rows := ValidRows(records);
    forall i | 0 <= i < |records| ensures Normals(rows)[i] == rows[i] <==> records[i].labelText != Some("") {
      assert rows[i].labelText == records[i].labelText;
    }
    assert (forall i :: 0 <= i < |rows| ==> Normals(rows)[i] == rows[i]) ==> Normals(rows) == rows;
  }

  /** The round trip is the identity exactly when no label is the empty string. */
  lemma FeeBlockRoundTripIsExact(records: seq<FeeRecord>, delimiter: char, lineEnding: string)
    requires AllValid(records) && IsDelimiter(delimiter) && IsLineEnding(lineEnding)
    ensures ParseBlock(BlockText(ValidRows(records), delimiter, lineEnding, true), delimiter) == Ok(ValidRows(records))
            <==> forall i :: 0 <= i < |records| ==> records[i].labelText != Some("")
  {
    hide ParseBlock, BlockText, ValidRows, Normals;
    FeeBlockRoundTrip(records, delimiter, lineEnding);
    NormalsAreExact(records);
  }
}
