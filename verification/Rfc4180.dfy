/**
 * A reader for the format of section 2 of RFC 4180, with a line feed as the only line end,
 * and the proof that it inverts the exporter.
 */
module Rfc4180 {
  import opened Wrappers
  import opened Text
  import opened CsvExport
  import opened Decimals

  /** Where the reader is inside a record. `Closed` follows a quote inside an enclosed field. */
  datatype Mode = Start | Plain | Enclosed | Closed

  /**
   * Reads `text` given what was read so far: the current field, the finished fields of the current
   * record, and the finished records. Malformed text gives `None`.
   */
  function Scan(text: string, mode: Mode, field: string, row: seq<string>, rows: seq<seq<string>>): Option<seq<seq<string>>>
    decreases |text|
  {
    if text == "" then
      match mode
      case Enclosed => None
      case Start => if row == [] then Some(rows) else Some(rows + [row + [field]])
      case _ => Some(rows + [row + [field]])
    else
      var c, rest := text[0], text[1..];
      if mode == Enclosed then
        if c == '"' then Scan(rest, Closed, field, row, rows)
        else Scan(rest, Enclosed, field + [c], row, rows)
      else if c == ',' then Scan(rest, Start, "", row + [field], rows)
      else if c == '\n' then Scan(rest, Start, "", [], rows + [row + [field]])
      else if c == '"' then
        match mode
        case Start => Scan(rest, Enclosed, field, row, rows)
        case Closed => Scan(rest, Enclosed, field + [c], row, rows)
        case _ => None
      else if mode == Closed then None
      else Scan(rest, Plain, field + [c], row, rows)
  }

  /** The records of a whole text. */
  function Parse(text: string): Option<seq<seq<string>>> {
    Scan(text, Start, "", [], [])
  }

  // ----- Reading back one printed field -----

  lemma {:induction false} ScanPlain(s: string, rest: string, mode: Mode, field: string, row: seq<string>, rows: seq<seq<string>>)
    requires !NeedsQuotes(s) && (mode == Plain || (mode == Start && s != ""))
    ensures Scan(s + rest, mode, field, row, rows) == Scan(rest, Plain, field + s, row, rows)
    decreases |s|
  {
    if s == "" {
      assert s + rest == rest && field + s == field;
    } else {
      assert (s + rest)[0] == s[0] && (s + rest)[1..] == s[1..] + rest;
      ScanPlain(s[1..], rest, Plain, field + [s[0]], row, rows);
      assert field + [s[0]] + s[1..] == field + s;
    }
  }

  lemma {:induction false} ScanEnclosed(s: string, rest: string, field: string, row: seq<string>, rows: seq<seq<string>>)
    ensures Scan(DoubleQuotes(s) + "\"" + rest, Enclosed, field, row, rows) == Scan(rest, Closed, field + s, row, rows)
    decreases |s|
  {
    var text := DoubleQuotes(s) + "\"" + rest;
    if s == "" {
      assert text[0] == '"' && text[1..] == rest && field + s == field;
    } else {
      var tail := DoubleQuotes(s[1..]) + "\"" + rest;
      ScanEnclosed(s[1..], rest, field + [s[0]], row, rows);
      assert field + [s[0]] + s[1..] == field + s;
      if s[0] == '"' {
        assert text[0] == '"' && text[1..][0] == '"' && text[1..][1..] == tail;
        assert Scan(text, Enclosed, field, row, rows) == Scan(text[1..], Closed, field, row, rows);
      } else {
        assert text[0] == s[0] && text[1..] == tail;
      }
    }
  }

  /** The reader after a finished field `s` and its separator. */
  function Next(s: string, sep: char, rest: string, row: seq<string>, rows: seq<seq<string>>): Option<seq<seq<string>>> {
    if sep == ',' then Scan(rest, Start, "", row + [s], rows)
    else Scan(rest, Start, "", [], rows + [row + [s]])
  }

  lemma ScanSeparator(mode: Mode, s: string, sep: char, rest: string, row: seq<string>, rows: seq<seq<string>>)
    requires (sep == ',' || sep == '\n') && mode != Enclosed
    ensures Scan([sep] + rest, mode, s, row, rows) == Next(s, sep, rest, row, rows)
  {
    assert ([sep] + rest)[0] == sep && ([sep] + rest)[1..] == rest;
  }

  lemma ScanQuoted(s: string, after: string, row: seq<string>, rows: seq<seq<string>>)
    ensures Scan("\"" + DoubleQuotes(s) + "\"" + after, Start, "", row, rows) == Scan(after, Closed, s, row, rows)
  {
    var text := "\"" + DoubleQuotes(s) + "\"" + after;
    assert text[0] == '"' && text[1..] == DoubleQuotes(s) + "\"" + after;
    ScanEnclosed(s, after, "", row, rows);
    assert "" + s == s;
  }

  /** Whatever follows the field, its printed form leaves the reader between fields with the text read. */
  lemma ScanField(s: string, sep: char, rest: string, row: seq<string>, rows: seq<seq<string>>)
    requires sep == ',' || sep == '\n'
    ensures Scan(Quote(s) + ([sep] + rest), Start, "", row, rows) == Next(s, sep, rest, row, rows)
  {
    var after := [sep] + rest;
    if NeedsQuotes(s) {
      ScanQuoted(s, after, row, rows);
      ScanSeparator(Closed, s, sep, rest, row, rows);
    } else if s != "" {
      ScanPlain(s, after, Start, "", row, rows);
      assert "" + s == s;
      ScanSeparator(Plain, s, sep, rest, row, rows);
    } else {
      assert s + after == after;
      ScanSeparator(Start, s, sep, rest, row, rows);
    }
  }

  // ----- Reading back rows and tables -----

  ghost predicate Prints(printed: seq<string>, texts: seq<string>) {
    |printed| == |texts| && forall i :: 0 <= i < |texts| ==> printed[i] == Quote(texts[i])
  }

  lemma {:induction false} ScanRow(printed: seq<string>, texts: seq<string>, rest: string, row: seq<string>, rows: seq<seq<string>>)
    requires texts != [] && Prints(printed, texts)
    ensures Scan(Join(printed, ",") + "\n" + rest, Start, "", row, rows)
         == Scan(rest, Start, "", [], rows + [row + texts])
    decreases |texts|
  {
    if |texts| == 1 {
      ScanField(texts[0], '\n', rest, row, rows);
      assert Quote(texts[0]) + (['\n'] + rest) == Join(printed, ",") + "\n" + rest;
      assert texts == [texts[0]];
    } else {
      var tail := Join(printed[1..], ",") + "\n" + rest;
      assert Join(printed, ",") + "\n" + rest == Quote(texts[0]) + ([','] + tail);
      ScanField(texts[0], ',', tail, row, rows);
      ScanRow(printed[1..], texts[1..], rest, row + [texts[0]], rows);
      assert row + [texts[0]] + texts[1..] == row + texts;
    }
  }

  /** Numbers need no quotes, so leaving them unescaped is printing them like any other text. */
  lemma ColumnPrints(c: Column)
    ensures PrintColumn(c) == Quote(ColumnText(c))
  {
    if c.Raw? {
      assert forall d :: d in Show(Number(c.n)) ==> d == '-' || '0' <= d <= '9';
    }
  }

  lemma ScanRecord(r: GasUsageRecord, rest: string, rows: seq<seq<string>>)
    ensures Scan(RecordToCsvRow(r) + "\n" + rest, Start, "", [], rows) == Scan(rest, Start, "", [], rows + [Fields(r)])
  {
    var cs := Columns(r);
    forall i | 0 <= i < |cs|
      ensures PrintColumns(cs)[i] == Quote(Fields(r)[i])
    {
      ColumnPrints(cs[i]);
    }
    ScanRow(PrintColumns(cs), Fields(r), rest, [], rows);
    assert [] + Fields(r) == Fields(r);
  }

  function AllFields(records: seq<GasUsageRecord>): (r: seq<seq<string>>)
    ensures |r| == |records|
  {
    seq(|records|, i requires 0 <= i < |records| => Fields(records[i]))
  }

  lemma {:induction false} ScanRecords(records: seq<GasUsageRecord>, rows: seq<seq<string>>)
    ensures Scan(Lines(Rows(records)), Start, "", [], rows) == Some(rows + AllFields(records))
    decreases |records|
  {
    if records == [] {
      assert rows + AllFields([]) == rows;
    } else {
      var rest := Lines(Rows(records[1..]));
      RowsSlice(records, 1, |records|);
      assert Rows(records)[1..] == Rows(records[1..]);
      ScanRecord(records[0], rest, rows);
      ScanRecords(records[1..], rows + [Fields(records[0])]);
      AllFieldsCons(records, rows);
    }
  }

  lemma AllFieldsCons(records: seq<GasUsageRecord>, rows: seq<seq<string>>)
    requires records != []
    ensures rows + [Fields(records[0])] + AllFields(records[1..]) == rows + AllFields(records)
  {
    assert AllFields(records) == [Fields(records[0])] + AllFields(records[1..]);
  }

  lemma LettersNeedNoQuotes(s: string)
    requires forall k :: 0 <= k < |s| ==> 'A' <= s[k]
    ensures Quote(s) == s
  {
  }

  lemma IdentityHeadersNeedNoQuotes()
    ensures forall i :: 0 <= i < 3 ==> Quote(CSV_HEADERS[i]) == CSV_HEADERS[i]
  {
    LettersNeedNoQuotes("MerchantID");
    LettersNeedNoQuotes("Wallet");
    LettersNeedNoQuotes("Chain");
  }

  lemma ChainHeadersNeedNoQuotes()
    ensures forall i :: 3 <= i < 6 ==> Quote(CSV_HEADERS[i]) == CSV_HEADERS[i]
  {
    LettersNeedNoQuotes("ChainID");
    LettersNeedNoQuotes("TxHash");
    LettersNeedNoQuotes("FunctionSelector");
  }

  lemma GasHeadersNeedNoQuotes()
    ensures forall i :: 6 <= i < 9 ==> Quote(CSV_HEADERS[i]) == CSV_HEADERS[i]
  {
    LettersNeedNoQuotes("GasUsed");
    LettersNeedNoQuotes("GasPriceGwei");
    LettersNeedNoQuotes("GasCostNative");
  }

  lemma CostHeadersNeedNoQuotes()
    ensures forall i :: 9 <= i < 12 ==> Quote(CSV_HEADERS[i]) == CSV_HEADERS[i]
  {
    LettersNeedNoQuotes("GasCostUSD");
    LettersNeedNoQuotes("Timestamp");
    LettersNeedNoQuotes("BlockNumber");
  }

  lemma HeadersNeedNoQuotes()
    ensures Prints(CSV_HEADERS, CSV_HEADERS)
  {
    IdentityHeadersNeedNoQuotes();
    ChainHeadersNeedNoQuotes();
    GasHeadersNeedNoQuotes();
    CostHeadersNeedNoQuotes();
  }

  /** The exported table reads back as the header and the records' fields, in order, for all field values. */
  lemma ParseTable(records: seq<GasUsageRecord>)
    ensures Parse(Table(records)) == Some([CSV_HEADERS] + AllFields(records))
  {
    HeadersNeedNoQuotes();
    ScanRow(CSV_HEADERS, CSV_HEADERS, Lines(Rows(records)), [], []);
    assert [] + CSV_HEADERS == CSV_HEADERS && [] + [CSV_HEADERS] == [CSV_HEADERS];
    ScanRecords(records, [CSV_HEADERS]);
  }

  /** Records with equal field values are printed as equal rows. */
  lemma EqualFieldsEqualRows(a: GasUsageRecord, b: GasUsageRecord)
    requires Fields(a) == Fields(b)
    ensures RecordToCsvRow(a) == RecordToCsvRow(b)
  {
    var cs, ds := Columns(a), Columns(b);
    forall i | 0 <= i < |cs|
      ensures PrintColumns(cs)[i] == PrintColumns(ds)[i]
    {
      ColumnPrints(cs[i]);
      ColumnPrints(ds[i]);
      assert Fields(a)[i] == Fields(b)[i];
    }
    assert PrintColumns(cs) == PrintColumns(ds);
  }

  /** Two exports are the same text exactly when they have the same field values. */
  lemma TablesAgree(a: seq<GasUsageRecord>, b: seq<GasUsageRecord>)
    ensures Table(a) == Table(b) <==> AllFields(a) == AllFields(b)
  {
    if Table(a) == Table(b) {
      ParseTable(a);
      ParseTable(b);
      assert ([CSV_HEADERS] + AllFields(a))[1..] == AllFields(a);
      assert ([CSV_HEADERS] + AllFields(b))[1..] == AllFields(b);
    }
    if AllFields(a) == AllFields(b) {
      forall i | 0 <= i < |a|
        ensures Rows(a)[i] == Rows(b)[i]
      {
        assert AllFields(a)[i] == AllFields(b)[i];
        EqualFieldsEqualRows(a[i], b[i]);
      }
      assert |a| == |AllFields(a)| && |b| == |AllFields(b)|;
      assert Rows(a) == Rows(b);
    }
  }

  // ----- Columns stand under their headers -----

  /** The value a header promises. */
  function ValueUnder(r: GasUsageRecord, header: string): Cell {
    match header
    case "MerchantID" => r.merchantId
    case "Wallet" => r.wallet
    case "Chain" => r.chain
    case "ChainID" => Number(r.chainId)
    case "TxHash" => r.txHash
    case "FunctionSelector" => r.functionSelector
    case "GasUsed" => Number(r.gasUsed)
    case "GasPriceGwei" => r.gasPriceGwei
    case "GasCostNative" => r.gasCostNative
    case "GasCostUSD" => r.gasCostUSD
    case "Timestamp" => r.timestamp
    case "BlockNumber" => Number(r.blockNumber)
    case _ => Missing
  }

  /** The columns of a row are in the order of the headers. */
  lemma ColumnsMatchHeaders(r: GasUsageRecord, i: nat)
    ensures |Fields(r)| == |CSV_HEADERS|
    ensures i < |CSV_HEADERS| ==> Fields(r)[i] == Show(ValueUnder(r, CSV_HEADERS[i]))
  {
  }

  // ----- What the columns stand for -----

  predicate NumbersCarry(row: seq<string>, r: GasUsageRecord)
    requires |row| == 12
  {
    Carries(row[3], Number(r.chainId)) && Carries(row[6], Number(r.gasUsed)) && Carries(row[11], Number(r.blockNumber))
  }

  predicate AddressesCarry(row: seq<string>, r: GasUsageRecord)
    requires |row| == 12
  {
    Carries(row[0], r.merchantId) && Carries(row[1], r.wallet) && Carries(row[2], r.chain)
    && Carries(row[4], r.txHash) && Carries(row[5], r.functionSelector)
  }

  predicate CostsCarry(row: seq<string>, r: GasUsageRecord)
    requires |row| == 12
  {
    Carries(row[7], r.gasPriceGwei) && Carries(row[8], r.gasCostNative) && Carries(row[9], r.gasCostUSD)
    && Carries(row[10], r.timestamp)
  }

  /** The twelve values of a record stand in their columns: texts as they are, numbers as their numerals. */
  predicate RowCarries(row: seq<string>, r: GasUsageRecord) {
    |row| == 12 && AddressesCarry(row, r) && NumbersCarry(row, r) && CostsCarry(row, r)
  }

  lemma FieldsAre(r: GasUsageRecord)
    ensures var row := Fields(r);
            && |row| == 12
            && row[0] == Show(r.merchantId) && row[1] == Show(r.wallet) && row[2] == Show(r.chain) && row[3] == Show(Number(r.chainId))
            && row[4] == Show(r.txHash) && row[5] == Show(r.functionSelector) && row[6] == Show(Number(r.gasUsed))
            && row[7] == Show(r.gasPriceGwei) && row[8] == Show(r.gasCostNative) && row[9] == Show(r.gasCostUSD)
            && row[10] == Show(r.timestamp) && row[11] == Show(Number(r.blockNumber))
  {
  }

  lemma NumbersAreCarried(r: GasUsageRecord)
    ensures NumbersCarry(Fields(r), r)
  {
    FieldsAre(r);
    ShownCarries(Number(r.chainId));
    ShownCarries(Number(r.gasUsed));
    ShownCarries(Number(r.blockNumber));
  }

  lemma AddressesAreCarried(r: GasUsageRecord)
    ensures AddressesCarry(Fields(r), r)
  {
    FieldsAre(r);
    ShownCarries(r.merchantId);
    ShownCarries(r.wallet);
    ShownCarries(r.chain);
    ShownCarries(r.txHash);
    ShownCarries(r.functionSelector);
  }

  lemma CostsAreCarried(r: GasUsageRecord)
    ensures CostsCarry(Fields(r), r)
  {
    FieldsAre(r);
    ShownCarries(r.gasPriceGwei);
    ShownCarries(r.gasCostNative);
    ShownCarries(r.gasCostUSD);
    ShownCarries(r.timestamp);
  }

  predicate AllCarry(rows: seq<seq<string>>, records: seq<GasUsageRecord>) {
    |rows| == |records| && forall i :: 0 <= i < |records| ==> RowCarries(rows[i], records[i])
  }

  lemma AllFieldsCarry(records: seq<GasUsageRecord>)
    ensures AllCarry(AllFields(records), records)
  {
    forall i | 0 <= i < |records|
      ensures RowCarries(AllFields(records)[i], records[i])
    {
      NumbersAreCarried(records[i]);
      AddressesAreCarried(records[i]);
      CostsAreCarried(records[i]);
    }
  }

  /** The exported table reads back as the headers and, for each record in order, a row that carries its values. */
  lemma ParsedRowsCarry(records: seq<GasUsageRecord>)
    ensures exists rows :: Parse(Table(records)) == Some([CSV_HEADERS] + rows) && AllCarry(rows, records)
  {
    ParseTable(records);
    AllFieldsCarry(records);
  }

  /** The third comment line states the number of records. */
  lemma TotalIsStated(m: Metadata)
    ensures |Comments(m)| >= 5
    ensures var title := "# Total Records: ";
            title <= Comments(m)[2] && Carries(Comments(m)[2][|title|..], Number(m.totalRecords))
  {
    var title, total := "# Total Records: ", Show(Number(m.totalRecords));
    ShownCarries(Number(m.totalRecords));
    assert Comments(m)[2] == title + total;
  }

  /** The other lines in front state the title, the time and the two totals. */
  lemma HeadIsStated(m: Metadata)
    ensures |Comments(m)| >= 5
    ensures Comments(m)[0] == "# Gas Usage Export Report" && Comments(m)[1] == "# Generated: " + m.generatedAt
    ensures Comments(m)[3] == "# Total Gas Cost (Native): " + m.totalGasCostNative
    ensures Comments(m)[4] == "# Total Gas Cost (USD): $" + m.totalGasCostUSD
  {
  }

  /** A text is quoted exactly if it contains a comma, a quote or a line feed. */
  lemma QuotedExactly(s: string)
    ensures Quote(s) == s <==> forall k :: 0 <= k < |s| ==> s[k] != ',' && s[k] != '"' && s[k] != '\n'
  {
    if NeedsQuotes(s) {
      DoublingLengthens(s);
      assert |Quote(s)| > |s|;
      var c :| c in s && (c == ',' || c == '"' || c == '\n');
      var k :| 0 <= k < |s| && s[k] == c;
    }
  }

  lemma {:induction false} DoublingLengthens(s: string)
    ensures |DoubleQuotes(s)| >= |s|
  {
    if s == "" {
    } else {
      DoublingLengthens(s[1..]);
    }
  }
}
