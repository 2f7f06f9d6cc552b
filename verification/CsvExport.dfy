/** The CSV export of gas usage records: escaping, rows and the chunked writer. */
module CsvExport {
  import opened Arithmetic
  import opened Sequences
  import opened Text
  import opened Wrappers

  /** A value as the row printer receives it. */
  datatype Cell = Missing | Text(s: string) | Number(n: int)

  function Digits(n: nat): (s: string)
    ensures forall c :: c in s ==> '0' <= c <= '9'
  {
    if n < 10 then [('0' as int + n) as char] else Digits(n / 10) + [('0' as int + n % 10) as char]
  }

  /** The plain text of a value, as the host language converts it to a string. */
  function Show(cell: Cell): string {
    match cell
    case Missing => ""
    case Text(s) => s
    case Number(n) => if n < 0 then "-" + Digits(-n) else Digits(n)
  }

  predicate NeedsQuotes(s: string) {
    ',' in s || '"' in s || '\n' in s
  }

  function DoubleQuotes(s: string): string {
    if s == "" then "" else (if s[0] == '"' then "\"\"" else [s[0]]) + DoubleQuotes(s[1..])
  }

  /** A text as it stands in a row. */
  function Quote(s: string): string {
    if NeedsQuotes(s) then "\"" + DoubleQuotes(s) + "\"" else s
  }

  function EscapeCsv(cell: Cell): string {
    Quote(Show(cell))
  }

  datatype GasUsageRecord = GasUsageRecord(
    merchantId: Cell, wallet: Cell, chain: Cell, chainId: int, txHash: Cell, functionSelector: Cell,
    gasUsed: int, gasPriceGwei: Cell, gasCostNative: Cell, gasCostUSD: Cell, timestamp: Cell, blockNumber: int)

  const CSV_HEADERS := [
    "MerchantID", "Wallet", "Chain", "ChainID", "TxHash", "FunctionSelector",
    "GasUsed", "GasPriceGwei", "GasCostNative", "GasCostUSD", "Timestamp", "BlockNumber"]

  /** A column of a row: escaped, or a number printed as it is. */
  datatype Column = Escape(cell: Cell) | Raw(n: int)

  function Columns(r: GasUsageRecord): seq<Column> {
    [Escape(r.merchantId), Escape(r.wallet), Escape(r.chain), Raw(r.chainId), Escape(r.txHash),
     Escape(r.functionSelector), Raw(r.gasUsed), Escape(r.gasPriceGwei), Escape(r.gasCostNative),
     Escape(r.gasCostUSD), Escape(r.timestamp), Raw(r.blockNumber)]
  }

  function PrintColumn(c: Column): string {
    match c
    case Escape(cell) => EscapeCsv(cell)
    case Raw(n) => Show(Number(n))
  }

  function PrintColumns(cs: seq<Column>): (r: seq<string>)
    ensures |r| == |cs|
  {
    seq(|cs|, i requires 0 <= i < |cs| => PrintColumn(cs[i]))
  }

  function RecordToCsvRow(r: GasUsageRecord): string {
    Join(PrintColumns(Columns(r)), ",")
  }

  function ColumnText(c: Column): string {
    Show(match c case Escape(cell) => cell case Raw(n) => Number(n))
  }

  /** The field values a reader of the file is meant to get back. */
  function Fields(r: GasUsageRecord): (fields: seq<string>)
    ensures |fields| == |Columns(r)|
  {
    var cs := Columns(r);
    seq(|cs|, i requires 0 <= i < |cs| => ColumnText(cs[i]))
  }

  // ----- The stream writer -----

  const CSV_WRITE_CHUNK: nat := 500

  class OutputStream {
    var data: string

    constructor ()
      ensures data == ""
    {
      data := "";
    }

    method Write(text: string)
      modifies this
      ensures data == old(data) + text
    {
      data := data + text;
    }
  }

  function Lines(rows: seq<string>): string {
    if rows == [] then "" else rows[0] + "\n" + Lines(rows[1..])
  }

  function Rows(records: seq<GasUsageRecord>): (rows: seq<string>)
    ensures |rows| == |records|
  {
    seq(|records|, i requires 0 <= i < |records| => RecordToCsvRow(records[i]))
  }

  /** The header row and one row per record, each ended by a line feed. */
  function Table(records: seq<GasUsageRecord>): string {
    Join(CSV_HEADERS, ",") + "\n" + Lines(Rows(records))
  }

  // ----- The comment lines in front of the table -----

  datatype Filters = Filters(
    merchantId: Option<string>, wallet: Option<string>, from: Option<string>, to: Option<string>,
    chain: Option<string>, txType: Option<string>)

  datatype Metadata = Metadata(
    generatedAt: string, filters: Filters, totalRecords: nat, totalGasCostNative: string, totalGasCostUSD: string)

  /** An empty text counts as no text. */
  predicate Given(value: Option<string>) {
    value.Some? && value.value != ""
  }

  /** Only a missing text is replaced, not an empty one. */
  function OrNone(value: Option<string>): string {
    if value.Some? then value.value else "N/A"
  }

  function Optionally(caption: string, value: Option<string>): seq<string> {
    if Given(value) then [caption + value.value] else []
  }

  function DateRange(from: Option<string>, to: Option<string>): seq<string> {
    if Given(from) || Given(to) then ["# Date Range: " + OrNone(from) + " \U{2192} " + OrNone(to)] else []
  }

  function ReportComments(m: Metadata): seq<string> {
    ["# Gas Usage Export Report"]
    + ["# Generated: " + m.generatedAt]
    + ["# Total Records: " + Show(Number(m.totalRecords))]
    + ["# Total Gas Cost (Native): " + m.totalGasCostNative]
    + ["# Total Gas Cost (USD): $" + m.totalGasCostUSD]
  }

  function FilterComments(f: Filters): seq<string> {
    Optionally("# Merchant: ", f.merchantId)
    + Optionally("# Wallet: ", f.wallet)
    + DateRange(f.from, f.to)
    + Optionally("# Chain: ", f.chain)
    + Optionally("# Tx Type Filter: ", f.txType)
  }

  function Comments(m: Metadata): seq<string> {
    ReportComments(m) + FilterComments(m.filters)
  }

  method WriteComment(line: string, ghost start: string, ghost lines: seq<string>, out: OutputStream)
    requires out.data == start + Lines(lines)
    modifies out
    ensures out.data == start + Lines(lines + [line])
  {
    out.Write(line + "\n");
    LinesConcat(lines, [line]);
    assert Lines([line]) == line + "\n";
    Associative(start, Lines(lines), line + "\n");
  }

  method WriteOptional(caption: string, value: Option<string>, ghost start: string, ghost lines: seq<string>, out: OutputStream)
    requires out.data == start + Lines(lines)
    modifies out
    ensures out.data == start + Lines(lines + Optionally(caption, value))
  {
    if Given(value) {
      WriteComment(caption + value.value, start, lines, out);
    } else {
      assert lines + [] == lines;
    }
  }

  method WriteReportComments(m: Metadata, out: OutputStream)
    modifies out
    ensures out.data == old(out.data) + Lines(ReportComments(m))
  {
    ghost var start := out.data;
    ghost var lines := [];
    WriteComment("# Gas Usage Export Report", start, lines, out);
    assert lines + ["# Gas Usage Export Report"] == ["# Gas Usage Export Report"];
    lines := ["# Gas Usage Export Report"];
    WriteComment("# Generated: " + m.generatedAt, start, lines, out);
    lines := lines + ["# Generated: " + m.generatedAt];
    WriteComment("# Total Records: " + Show(Number(m.totalRecords)), start, lines, out);
    lines := lines + ["# Total Records: " + Show(Number(m.totalRecords))];
    WriteComment("# Total Gas Cost (Native): " + m.totalGasCostNative, start, lines, out);
    lines := lines + ["# Total Gas Cost (Native): " + m.totalGasCostNative];
    WriteComment("# Total Gas Cost (USD): $" + m.totalGasCostUSD, start, lines, out);
  }

  method WriteFilterComments(f: Filters, out: OutputStream)
    modifies out
    ensures out.data == old(out.data) + Lines(FilterComments(f))
  {
    ghost var start := out.data;
    ghost var lines := [];
    WriteOptional("# Merchant: ", f.merchantId, start, lines, out);
    assert lines + Optionally("# Merchant: ", f.merchantId) == Optionally("# Merchant: ", f.merchantId);
    lines := Optionally("# Merchant: ", f.merchantId);
    WriteOptional("# Wallet: ", f.wallet, start, lines, out);
    lines := lines + Optionally("# Wallet: ", f.wallet);
    if Given(f.from) || Given(f.to) {
      WriteComment("# Date Range: " + OrNone(f.from) + " \U{2192} " + OrNone(f.to), start, lines, out);
    } else {
      assert lines + [] == lines;
    }
    lines := lines + DateRange(f.from, f.to);
    WriteOptional("# Chain: ", f.chain, start, lines, out);
    lines := lines + Optionally("# Chain: ", f.chain);
    WriteOptional("# Tx Type Filter: ", f.txType, start, lines, out);
  }

  /**
   * Writes the comment lines, a blank line, the header and the records in chunks. Whatever the
   * chunk size, the stream receives the same text.
   */
  method BuildCsvStream(records: seq<GasUsageRecord>, metadata: Metadata, chunk: nat, out: OutputStream)
    requires chunk > 0
    modifies out
    ensures out.data == old(out.data) + ReportText(records, metadata)
  {
    ghost var start := out.data;
    WriteReportComments(metadata, out);
    WriteFilterComments(metadata.filters, out);
    LinesConcat(ReportComments(metadata), FilterComments(metadata.filters));
    Associative(start, Lines(ReportComments(metadata)), Lines(FilterComments(metadata.filters)));
    WriteTable(records, chunk, out);
    Associative(start, Lines(Comments(metadata)), "\n" + Table(records));
  }

  method WriteTable(records: seq<GasUsageRecord>, chunk: nat, out: OutputStream)
    requires chunk > 0
    modifies out
    ensures out.data == old(out.data) + ("\n" + Table(records))
  {
    ghost var start := out.data;
    var header := Join(CSV_HEADERS, ",") + "\n";
    out.Write("\n");
    out.Write(header);
    WriteRows(records, chunk, out);
    Associative(start + "\n", header, Lines(Rows(records)));
    Associative(start, "\n", Table(records));
  }

  /** The whole exported text. */
  function ReportText(records: seq<GasUsageRecord>, metadata: Metadata): string {
    Lines(Comments(metadata)) + ("\n" + Table(records))
  }

  method WriteRows(records: seq<GasUsageRecord>, chunk: nat, out: OutputStream)
    requires chunk > 0
    modifies out
    ensures out.data == old(out.data) + Lines(Rows(records))
  {
    ghost var rows, written := Rows(records), 0;
    var i := 0;
    while i < |records|
      invariant written == Min(i, |records|)
      invariant out.data == old(out.data) + Lines(rows[..written])
    {
      var end := Min(i + chunk, |records|);
      WriteChunk(records, i, end, out);
      ChunkLines(old(out.data), rows, i, end);
      i, written := i + chunk, end;
    }
    assert rows[..|rows|] == rows;
  }

  method WriteChunk(records: seq<GasUsageRecord>, i: nat, end: nat, out: OutputStream)
    requires i < end <= |records|
    modifies out
    ensures out.data == old(out.data) + (Join(Rows(records)[i..end], "\n") + "\n")
  {
    var lines := Join(Rows(records[i..end]), "\n");
    RowsSlice(records, i, end);
    out.Write(lines + "\n");
  }

  lemma RowsSlice(records: seq<GasUsageRecord>, i: nat, end: nat)
    requires i <= end <= |records|
    ensures Rows(records[i..end]) == Rows(records)[i..end]
  {
  }

  /** Writing the next chunk after the lines of the first `i` rows gives the lines of the first `end` rows. */
  lemma ChunkLines(start: string, rows: seq<string>, i: nat, end: nat)
    requires i < end <= |rows|
    ensures start + Lines(rows[..i]) + (Join(rows[i..end], "\n") + "\n") == start + Lines(rows[..end])
  {
    JoinIsLines(rows[i..end]);
    LinesConcat(rows[..i], rows[i..end]);
    assert rows[..i] + rows[i..end] == rows[..end];
    Associative(start, Lines(rows[..i]), Lines(rows[i..end]));
  }

  /** The service's own call, with its fixed chunk size. */
  method WriteReport(records: seq<GasUsageRecord>, metadata: Metadata) returns (text: string)
    ensures text == ReportText(records, metadata)
  {
    var out := new OutputStream();
    BuildCsvStream(records, metadata, CSV_WRITE_CHUNK, out);
    text := out.data;
  }

  lemma {:induction false} LinesConcat(a: seq<string>, b: seq<string>)
    ensures Lines(a + b) == Lines(a) + Lines(b)
  {
    if a == [] {
      assert a + b == b;
    } else {
      LinesConcat(a[1..], b);
      assert (a + b)[0] == a[0] && (a + b)[1..] == a[1..] + b;
    }
  }

  /** Joining a chunk with line feeds and ending it with one gives its lines. */
  lemma {:induction false} JoinIsLines(rows: seq<string>)
    requires rows != []
    ensures Join(rows, "\n") + "\n" == Lines(rows)
  {
    if |rows| > 1 {
      JoinIsLines(rows[1..]);
    } else {
      assert rows[1..] == [];
    }
  }
}
