/**
 * Finding the table in a whole exported report: the comment lines in front of it are not escaped,
 * so it depends on their text whether the first blank line is the one before the table.
 */
module ReportText {
  import opened Wrappers
  import opened CsvExport
  import opened Rfc4180
  import opened Sequences

  /** The text after the first empty line; `start` tells whether `text` stands at the start of a line. */
  function AfterBlankLine(text: string, start: bool): Option<string> {
    if text == "" then None
    else if text[0] != '\n' then AfterBlankLine(text[1..], false)
    else if start then Some(text[1..])
    else AfterBlankLine(text[1..], true)
  }

  /** The records behind the first blank line of a text. */
  function ReadReport(text: string): Option<seq<seq<string>>> {
    var table := AfterBlankLine(text, true);
    if table.Some? then Parse(table.value) else None
  }

  /** Whether a text contains an empty line when it is ended by a line feed. */
  predicate HasBlankLine(line: string) {
    line == "" || line[0] == '\n' || Breaks(line)
  }

  predicate HasEmptyLine(s: string) {
    exists i :: 0 <= i < |s| - 1 && s[i] == '\n' && s[i + 1] == '\n'
  }

  /** Whether a text ends a line or contains an empty one. */
  predicate Breaks(s: string) {
    (s != "" && s[|s| - 1] == '\n') || HasEmptyLine(s)
  }

  // ----- Skipping comment lines -----

  lemma {:induction false} SkipsLine(line: string, rest: string, start: bool)
    requires !Breaks(line) && (start ==> line != "" && line[0] != '\n')
    ensures AfterBlankLine(line + "\n" + rest, start) == AfterBlankLine(rest, true)
    decreases |line|
  {
    var text := line + "\n" + rest;
    if line == "" {
      assert text[0] == '\n' && text[1..] == rest;
    } else {
      assert text[0] == line[0] && text[1..] == line[1..] + "\n" + rest;
      StaysUnbroken(line);
      SkipsLine(line[1..], rest, line[0] == '\n');
    }
  }

  lemma StaysUnbroken(line: string)
    requires line != "" && !Breaks(line)
    ensures !Breaks(line[1..])
    ensures line[0] == '\n' ==> line[1..] != "" && line[1..][0] != '\n'
  {
    var tail := line[1..];
    if tail != "" {
      assert tail[|tail| - 1] == line[|line| - 1];
      forall i | 0 <= i < |tail| - 1
        ensures !(tail[i] == '\n' && tail[i + 1] == '\n')
      {
        assert line[i + 1] == tail[i] && line[i + 1 + 1] == tail[i + 1];
      }
      assert line[0 + 1] == tail[0];
    }
  }

  /** With an empty line inside, the text found starts no later than the text after the line. */
  lemma {:induction false} StopsInLine(line: string, rest: string, start: bool)
    requires Breaks(line) || (start && (line == "" || line[0] == '\n'))
    ensures AfterBlankLine(line + "\n" + rest, start).Some?
    ensures |AfterBlankLine(line + "\n" + rest, start).value| >= |rest|
    decreases |line|
  {
    var text := line + "\n" + rest;
    if line == "" {
      assert text[0] == '\n' && text[1..] == rest;
    } else {
      assert text[0] == line[0] && text[1..] == line[1..] + "\n" + rest;
      if !(start && line[0] == '\n') {
        BreaksLater(line);
        StopsInLine(line[1..], rest, line[0] == '\n');
      }
    }
  }

  lemma BreaksLater(line: string)
    requires Breaks(line)
    ensures Breaks(line[1..]) || (line[0] == '\n' && (line[1..] == "" || line[1..][0] == '\n'))
  {
    var tail := line[1..];
    if tail != "" && tail[|tail| - 1] != '\n' {
      var i :| 0 <= i < |line| - 1 && line[i] == '\n' && line[i + 1] == '\n';
      if i > 0 {
        assert tail[i - 1] == '\n' && tail[i - 1 + 1] == '\n';
      }
    }
  }

  /** The text after the comments and a blank line is found exactly when no comment holds a blank line. */
  lemma {:induction false} TableIsFound(comments: seq<string>, table: string)
    ensures AfterBlankLine(Lines(comments) + ("\n" + table), true) == Some(table)
       <==> (forall c :: c in comments ==> !HasBlankLine(c))
    decreases |comments|
  {
    if comments == [] {
      var text := "\n" + table;
      assert Lines(comments) + text == text && text[0] == '\n' && text[1..] == table;
    } else {
      var line, rest := comments[0], Lines(comments[1..]) + ("\n" + table);
      Associative(line + "\n", Lines(comments[1..]), "\n" + table);
      if HasBlankLine(line) {
        StopsInLine(line, rest, true);
      } else {
        SkipsLine(line, rest, true);
        TableIsFound(comments[1..], table);
        assert comments == [line] + comments[1..];
      }
    }
  }

  // ----- The exporter's own comments -----

  /** A comment holds a blank line exactly when the text behind its caption breaks it. */
  lemma Labelled(caption: string, value: string)
    requires caption != "" && '\n' !in caption
    ensures HasBlankLine(caption + value) <==> Breaks(value)
  {
    var line := caption + value;
    assert line[0] == caption[0] && line[0] in caption;
    assert caption[|caption| - 1] in caption;
    if Breaks(value) && value[|value| - 1] != '\n' {
      var i :| 0 <= i < |value| - 1 && value[i] == '\n' && value[i + 1] == '\n';
      assert line[|caption| + i] == value[i] && line[|caption| + i + 1] == value[i + 1];
    }
    forall k | 0 <= k < |caption|
      ensures line[k] != '\n'
    {
      assert caption[k] in caption;
    }
    if Breaks(line) && line[|line| - 1] != '\n' {
      var i :| 0 <= i < |line| - 1 && line[i] == '\n' && line[i + 1] == '\n';
      assert value[i - |caption|] == line[i] && value[i - |caption| + 1] == line[i + 1];
    }
  }

  lemma Between(from: string, caption: string, to: string)
    requires caption != "" && '\n' !in caption
    ensures Breaks(from + caption + to) <==> HasEmptyLine(from) || Breaks(to)
  {
    var line, tail := from + caption + to, caption + to;
    Labelled(caption, to);
    assert line == from + tail && tail[0] in caption && tail[0] != '\n';
    if HasEmptyLine(from) {
      var i :| 0 <= i < |from| - 1 && from[i] == '\n' && from[i + 1] == '\n';
      assert line[i] == from[i] && line[i + 1] == from[i + 1];
    }
    if HasEmptyLine(tail) {
      var i :| 0 <= i < |tail| - 1 && tail[i] == '\n' && tail[i + 1] == '\n';
      assert line[|from| + i] == tail[i] && line[|from| + i + 1] == tail[i + 1];
    }
    if HasEmptyLine(line) {
      var i :| 0 <= i < |line| - 1 && line[i] == '\n' && line[i + 1] == '\n';
      assert line[|from|] == tail[0];
      if i < |from| {
        assert from[i] == line[i] && from[i + 1] == line[i + 1];
      } else {
        assert tail[i - |from|] == line[i] && tail[i - |from| + 1] == line[i + 1];
      }
    }
  }

  predicate OptionBreaks(value: Option<string>) {
    value.Some? && Breaks(value.value)
  }

  /** Only the later date stands at the end of its line. */
  predicate RangeBreaks(from: Option<string>, to: Option<string>) {
    (from.Some? && HasEmptyLine(from.value)) || OptionBreaks(to)
  }

  /** Whether some text of the metadata puts a blank line among the comments. */
  predicate MetadataBreaks(m: Metadata) {
    Breaks(m.generatedAt) || Breaks(m.totalGasCostNative) || Breaks(m.totalGasCostUSD) || FiltersBreak(m.filters)
  }

  predicate FiltersBreak(f: Filters) {
    OptionBreaks(f.merchantId) || OptionBreaks(f.wallet) || RangeBreaks(f.from, f.to)
    || OptionBreaks(f.chain) || OptionBreaks(f.txType)
  }

  predicate SomeBlankLine(comments: seq<string>) {
    exists c :: c in comments && HasBlankLine(c)
  }

  lemma OptionallyBreaks(caption: string, value: Option<string>)
    requires caption != "" && '\n' !in caption
    ensures SomeBlankLine(Optionally(caption, value)) <==> OptionBreaks(value)
  {
    if Given(value) {
      Labelled(caption, value.value);
      assert caption + value.value in Optionally(caption, value);
    }
  }

  lemma DateRangeBreaks(from: Option<string>, to: Option<string>)
    ensures SomeBlankLine(DateRange(from, to)) <==> RangeBreaks(from, to)
  {
    if Given(from) || Given(to) {
      var caption, arrow := "# Date Range: ", " \U{2192} ";
      var line := caption + OrNone(from) + arrow + OrNone(to);
      assert line == caption + (OrNone(from) + arrow + OrNone(to));
      Labelled(caption, OrNone(from) + arrow + OrNone(to));
      Between(OrNone(from), arrow, OrNone(to));
      assert line in DateRange(from, to);
    }
  }

  lemma SomeBlankLineConcat(a: seq<string>, b: seq<string>)
    ensures SomeBlankLine(a + b) <==> SomeBlankLine(a) || SomeBlankLine(b)
  {
    if SomeBlankLine(a) || SomeBlankLine(b) {
      var c :| (c in a || c in b) && HasBlankLine(c);
      assert c in a + b;
    }
  }

  lemma SomeBlankLineOfOne(c: string)
    ensures SomeBlankLine([c]) <==> HasBlankLine(c)
  {
    assert c in [c];
  }

  lemma FilterCommentsBreak(f: Filters)
    ensures SomeBlankLine(FilterComments(f)) <==> FiltersBreak(f)
  {
    var a, b, c := Optionally("# Merchant: ", f.merchantId), Optionally("# Wallet: ", f.wallet), DateRange(f.from, f.to);
    var d, e := Optionally("# Chain: ", f.chain), Optionally("# Tx Type Filter: ", f.txType);
    OptionallyBreaks("# Merchant: ", f.merchantId);
    OptionallyBreaks("# Wallet: ", f.wallet);
    DateRangeBreaks(f.from, f.to);
    OptionallyBreaks("# Chain: ", f.chain);
    OptionallyBreaks("# Tx Type Filter: ", f.txType);
    SomeBlankLineConcat(a, b);
    SomeBlankLineConcat(a + b, c);
    SomeBlankLineConcat(a + b + c, d);
    SomeBlankLineConcat(a + b + c + d, e);
  }

  lemma NumbersDoNotBreak(n: nat)
    ensures !Breaks(Show(Number(n)))
  {
    var s := Show(Number(n));
    forall i | 0 <= i < |s|
      ensures s[i] != '\n'
    {
      assert s[i] in s;
    }
  }

  lemma ReportCommentsBreak(m: Metadata)
    ensures SomeBlankLine(ReportComments(m)) <==> Breaks(m.generatedAt) || Breaks(m.totalGasCostNative) || Breaks(m.totalGasCostUSD)
  {
    var title, count := "# Gas Usage Export Report", Show(Number(m.totalRecords));
    var a, b, c := [title], ["# Generated: " + m.generatedAt], ["# Total Records: " + count];
    var d, e := ["# Total Gas Cost (Native): " + m.totalGasCostNative], ["# Total Gas Cost (USD): $" + m.totalGasCostUSD];
    Labelled(title, "");
    assert title + "" == title;
    Labelled("# Generated: ", m.generatedAt);
    Labelled("# Total Records: ", count);
    NumbersDoNotBreak(m.totalRecords);
    Labelled("# Total Gas Cost (Native): ", m.totalGasCostNative);
    Labelled("# Total Gas Cost (USD): $", m.totalGasCostUSD);
    SomeBlankLineOfOne(a[0]);
    SomeBlankLineOfOne(b[0]);
    SomeBlankLineOfOne(c[0]);
    SomeBlankLineOfOne(d[0]);
    SomeBlankLineOfOne(e[0]);
    SomeBlankLineConcat(a, b);
    SomeBlankLineConcat(a + b, c);
    SomeBlankLineConcat(a + b + c, d);
    SomeBlankLineConcat(a + b + c + d, e);
  }

  /**
   * Behind the first blank line of the exported text stands the table and nothing else, exactly
   * when no text of the metadata contains an empty line or ends its line.
   */
  lemma ReportIsReadable(records: seq<GasUsageRecord>, m: Metadata)
    ensures AfterBlankLine(ReportText(records, m), true) == Some(Table(records)) <==> !MetadataBreaks(m)
    ensures !MetadataBreaks(m) ==>
              exists rows :: ReadReport(ReportText(records, m)) == Some([CSV_HEADERS] + rows) && AllCarry(rows, records)
  {
    ReportCommentsBreak(m);
    FilterCommentsBreak(m.filters);
    SomeBlankLineConcat(ReportComments(m), FilterComments(m.filters));
    TableIsFound(Comments(m), Table(records));
    ParsedRowsCarry(records);
  }

  // ----- What the comments say -----

  /** A given value is stated behind its caption, and of a missing or empty one there is no line. */
  predicate Says(comments: seq<string>, caption: string, value: Option<string>) {
    if value.Some? && value.value != "" then caption + value.value in comments
    else forall c :: c in comments ==> !(caption <= c)
  }

  /** The date range is stated if one of its ends is given, a missing end as such. */
  predicate SaysRange(comments: seq<string>, from: Option<string>, to: Option<string>) {
    var start, end := if from.Some? then from.value else "N/A", if to.Some? then to.value else "N/A";
    if (from.Some? && from.value != "") || (to.Some? && to.value != "") then
      "# Date Range: " + start + " \U{2192} " + end in comments
    else forall c :: c in comments ==> !("# Date Range: " <= c)
  }

  /** The third or fourth letter of a line tells the filter it is about. */
  predicate About(line: string, letter: char, next: char) {
    |line| > 3 && line[2] == letter && line[3] == next
  }

  predicate NoneAbout(lines: seq<string>, letter: char, next: char) {
    forall c :: c in lines ==> !About(c, letter, next)
  }

  lemma PrefixIsAbout(caption: string, c: string)
    requires |caption| > 3
    ensures caption <= c ==> About(c, caption[2], caption[3])
  {
    if caption <= c {
      assert c[2] == caption[2] && c[3] == caption[3];
    }
  }

  lemma SaidOnce(front: seq<string>, value: Option<string>, caption: string, back: seq<string>)
    requires |caption| > 3 && NoneAbout(front, caption[2], caption[3]) && NoneAbout(back, caption[2], caption[3])
    ensures Says(front + (Optionally(caption, value) + back), caption, value)
  {
    if Given(value) {
      assert caption + value.value in Optionally(caption, value);
    } else {
      forall c | c in front + (Optionally(caption, value) + back)
        ensures !(caption <= c)
      {
        PrefixIsAbout(caption, c);
      }
    }
  }

  lemma RangeSaid(front: seq<string>, from: Option<string>, to: Option<string>, back: seq<string>)
    requires NoneAbout(front, 'D', 'a') && NoneAbout(back, 'D', 'a')
    ensures SaysRange(front + (DateRange(from, to) + back), from, to)
  {
    if Given(from) || Given(to) {
      assert DateRange(from, to)[0] in DateRange(from, to);
    } else {
      forall c | c in front + (DateRange(from, to) + back)
        ensures !("# Date Range: " <= c)
      {
        PrefixIsAbout("# Date Range: ", c);
      }
    }
  }

  /** The five filters in the order of their comment lines. */
  function Part(f: Filters, k: nat): seq<string> {
    match k
    case 0 => Optionally("# Merchant: ", f.merchantId)
    case 1 => Optionally("# Wallet: ", f.wallet)
    case 2 => DateRange(f.from, f.to)
    case 3 => Optionally("# Chain: ", f.chain)
    case 4 => Optionally("# Tx Type Filter: ", f.txType)
    case _ => []
  }

  function Letter(k: nat): char {
    match k case 0 => 'M' case 1 => 'W' case 2 => 'D' case 3 => 'C' case _ => 'T'
  }

  function NextLetter(k: nat): char {
    match k case 0 => 'e' case 1 => 'a' case 2 => 'a' case 3 => 'h' case _ => 'x'
  }

  lemma OptionalIsAbout(caption: string, value: Option<string>, letter: char, next: char)
    requires |caption| > 3 && caption[2] == letter && caption[3] == next
    ensures forall c :: c in Optionally(caption, value) ==> About(c, letter, next)
  {
  }

  lemma RangeIsAbout(from: Option<string>, to: Option<string>)
    ensures forall c :: c in DateRange(from, to) ==> About(c, 'D', 'a')
  {
    if Given(from) || Given(to) {
      var line := DateRange(from, to)[0];
      assert line == "# Date Range: " + (OrNone(from) + " \U{2192} " + OrNone(to));
      assert line[2] == 'D' && line[3] == 'a';
    }
  }

  lemma PartIsAbout(f: Filters, k: nat)
    ensures forall c :: c in Part(f, k) ==> About(c, Letter(k), NextLetter(k))
  {
    match k
    case 0 => OptionalIsAbout("# Merchant: ", f.merchantId, 'M', 'e');
    case 1 => OptionalIsAbout("# Wallet: ", f.wallet, 'W', 'a');
    case 2 => RangeIsAbout(f.from, f.to);
    case 3 => OptionalIsAbout("# Chain: ", f.chain, 'C', 'h');
    case 4 => OptionalIsAbout("# Tx Type Filter: ", f.txType, 'T', 'x');
    case _ =>
  }

  lemma ReportIsAbout(m: Metadata, letter: char, next: char)
    requires letter != 'G' && (letter != 'T' || next != 'o')
    ensures NoneAbout(ReportComments(m), letter, next)
  {
  }

  /** The lines before the filter at `k`. */
  function Before(m: Metadata, k: nat): seq<string> {
    if k == 0 then ReportComments(m) else Before(m, k - 1) + Part(m.filters, k - 1)
  }

  /** The lines of the filters from `k` on. */
  function From(f: Filters, k: nat): seq<string>
    decreases 5 - k
  {
    if k >= 5 then [] else Part(f, k) + From(f, k + 1)
  }

  lemma {:induction false} NothingBefore(m: Metadata, k: nat, j: nat)
    requires k <= j < 5
    ensures NoneAbout(Before(m, k), Letter(j), NextLetter(j))
  {
    if k == 0 {
      ReportIsAbout(m, Letter(j), NextLetter(j));
    } else {
      NothingBefore(m, k - 1, j);
      PartIsAbout(m.filters, k - 1);
    }
  }

  lemma {:induction false} NothingFrom(f: Filters, k: nat, j: nat)
    requires j < k && j < 5
    ensures NoneAbout(From(f, k), Letter(j), NextLetter(j))
    decreases 5 - k
  {
    if k >= 5 {
    } else {
      NothingFrom(f, k + 1, j);
      PartIsAbout(f, k);
    }
  }

  lemma {:induction false} BeforeAndFrom(m: Metadata, k: nat)
    requires k <= 5
    ensures Before(m, k) + From(m.filters, k) == ReportComments(m) + From(m.filters, 0)
  {
    if k == 0 {
    } else {
      BeforeAndFrom(m, k - 1);
      Associative(Before(m, k - 1), Part(m.filters, k - 1), From(m.filters, k));
    }
  }

  lemma InFive(a: seq<string>, b: seq<string>, c: seq<string>, d: seq<string>, e: seq<string>)
    ensures a + b + c + d + e == a + (b + (c + (d + (e + []))))
  {
  }

  lemma CommentsInParts(m: Metadata, k: nat)
    requires k < 5
    ensures Comments(m) == Before(m, k) + (Part(m.filters, k) + From(m.filters, k + 1))
  {
    var f := m.filters;
    BeforeAndFrom(m, k);
    InFive(Part(f, 0), Part(f, 1), Part(f, 2), Part(f, 3), Part(f, 4));
    AllFive(f);
    assert FilterComments(f) == Part(f, 0) + Part(f, 1) + Part(f, 2) + Part(f, 3) + Part(f, 4);
  }

  lemma AllFive(f: Filters)
    ensures From(f, 0) == Part(f, 0) + (Part(f, 1) + (Part(f, 2) + (Part(f, 3) + (Part(f, 4) + []))))
  {
    assert From(f, 5) == [];
    assert From(f, 4) == Part(f, 4) + From(f, 5);
    assert From(f, 3) == Part(f, 3) + From(f, 4);
    assert From(f, 2) == Part(f, 2) + From(f, 3);
    assert From(f, 1) == Part(f, 1) + From(f, 2);
  }

  lemma FilterIsStated(m: Metadata, k: nat, caption: string, value: Option<string>)
    requires k < 5 && |caption| > 3 && caption[2] == Letter(k) && caption[3] == NextLetter(k)
    requires Part(m.filters, k) == Optionally(caption, value)
    ensures Says(Comments(m), caption, value)
  {
    NothingBefore(m, k, k);
    NothingFrom(m.filters, k + 1, k);
    CommentsInParts(m, k);
    SaidOnce(Before(m, k), value, caption, From(m.filters, k + 1));
  }

  /** The date range is stated if one of its ends is given, a missing end as such, and not at all otherwise. */
  lemma RangeIsStated(m: Metadata)
    ensures SaysRange(Comments(m), m.filters.from, m.filters.to)
  {
    NothingBefore(m, 2, 2);
    NothingFrom(m.filters, 3, 2);
    CommentsInParts(m, 2);
    RangeSaid(Before(m, 2), m.filters.from, m.filters.to, From(m.filters, 3));
  }

  /** Merchant and wallet are stated with their values if given, and not at all otherwise. */
  lemma OwnersAreStated(m: Metadata)
    ensures Says(Comments(m), "# Merchant: ", m.filters.merchantId) && Says(Comments(m), "# Wallet: ", m.filters.wallet)
  {
    FilterIsStated(m, 0, "# Merchant: ", m.filters.merchantId);
    FilterIsStated(m, 1, "# Wallet: ", m.filters.wallet);
  }

  /** So is the chain. */
  lemma ChainIsStated(m: Metadata)
    ensures Says(Comments(m), "# Chain: ", m.filters.chain)
  {
    FilterIsStated(m, 3, "# Chain: ", m.filters.chain);
  }

  /** So is the transaction type. */
  lemma TxTypeIsStated(m: Metadata)
    ensures Says(Comments(m), "# Tx Type Filter: ", m.filters.txType)
  {
    FilterIsStated(m, 4, "# Tx Type Filter: ", m.filters.txType);
  }
}
