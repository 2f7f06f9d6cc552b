/**
 * Collecting the records of an export: scanning the chain's logs in block ranges and parsing the
 * transactions found in batches. Neither the range size nor the batch size shows in the result.
 */
module ExportCollection {
  import opened Arithmetic
  import opened CsvExport
  import opened Ordering
  import opened Sequences
  import opened Wrappers

  const LOG_CHUNK_SIZE: nat := 2000
  const TX_BATCH_SIZE: nat := 20

  /** The transaction hashes of the logs in a block range, in order; none if the provider fails on it. */
  type LogProvider = ((int, int)) -> Option<seq<string>>

  /** The block ranges the scan asks for. */
  function Chunks(first: int, last: int, size: nat): seq<(int, int)>
    requires size > 0
    decreases last - first
  {
    if first > last then [] else [(first, Min(last, first + size - 1))] + Chunks(first + size, last, size)
  }

  function Blocks(first: int, last: int): seq<int>
    decreases last - first
  {
    if first > last then [] else [first] + Blocks(first + 1, last)
  }

  function BlocksOf(chunk: (int, int)): seq<int> {
    Blocks(chunk.0, chunk.1)
  }

  function AnsweredBy(provider: LogProvider): ((int, int)) -> seq<string> {
    chunk => if provider(chunk).Some? then provider(chunk).value else []
  }

  method CollectWalletTxHashes(provider: LogProvider, first: int, last: int, size: nat) returns (hashes: seq<string>)
    requires size > 0
    ensures hashes == Unique(FlatMap(Chunks(first, last, size), AnsweredBy(provider)))
  {
    hashes := [];
    ghost var seen: seq<string> := [];
    var start := first;
    while start <= last
      invariant hashes == Unique(seen)
      invariant seen + FlatMap(Chunks(start, last, size), AnsweredBy(provider)) == FlatMap(Chunks(first, last, size), AnsweredBy(provider))
      decreases last - start
    {
      var chunk := (start, Min(last, start + size - 1));
      var logs := provider(chunk);
      ghost var rest := FlatMap(Chunks(start + size, last, size), AnsweredBy(provider));
      assert Chunks(start, last, size)[1..] == Chunks(start + size, last, size);
      if logs.Some? {
        hashes := AddAll(hashes, logs.value, seen);
        Associative(seen, logs.value, rest);
        seen := seen + logs.value;
      } else {
        assert [] + rest == rest;
      }
      start := start + size;
    }
    assert seen + [] == seen;
  }

  method AddAll(hashes: seq<string>, logs: seq<string>, ghost seen: seq<string>) returns (r: seq<string>)
    requires hashes == Unique(seen)
    ensures r == Unique(seen + logs)
  {
    r := hashes;
    assert seen + logs[..0] == seen;
    for i := 0 to |logs|
      invariant r == Unique(seen + logs[..i])
    {
      UniqueSnoc(seen + logs[..i], logs[i]);
      assert seen + logs[..i] + [logs[i]] == seen + logs[..i + 1];
      if logs[i] !in r {
        r := r + [logs[i]];
      }
    }
    assert logs[..|logs|] == logs;
  }

  // ---------- The ranges cover every block once ----------

  lemma {:induction false} BlocksSplit(first: int, mid: int, last: int)
    requires first <= mid + 1 && mid <= last
    ensures Blocks(first, last) == Blocks(first, mid) + Blocks(mid + 1, last)
    decreases mid - first
  {
    if first <= mid {
      BlocksSplit(first + 1, mid, last);
    } else {
      assert [] + Blocks(first, last) == Blocks(first, last);
    }
  }

  /** The ranges, one after the other, are the blocks from the first to the last, each once and in order. */
  lemma {:induction false} ChunksCover(first: int, last: int, size: nat)
    requires size > 0
    ensures FlatMap(Chunks(first, last, size), BlocksOf) == Blocks(first, last)
    decreases last - first
  {
    if first <= last {
      var mid := Min(last, first + size - 1);
      ChunksCover(first + size, last, size);
      assert Chunks(first, last, size)[1..] == Chunks(first + size, last, size);
      BlocksSplit(first, mid, last);
      assert Blocks(first + size, last) == Blocks(mid + 1, last);
    }
  }

  /** No range is empty or longer than the size. */
  lemma {:induction false} ChunksFit(first: int, last: int, size: nat)
    requires size > 0
    ensures forall c :: c in Chunks(first, last, size) ==> first <= c.0 <= c.1 <= last && c.1 - c.0 < size
    decreases last - first
  {
    if first <= last {
      ChunksFit(first + size, last, size);
    }
  }

  /** Every range but the last is exactly as long as the size. */
  lemma {:induction false} ChunksAreFull(first: int, last: int, size: nat)
    requires size > 0
    ensures var chunks := Chunks(first, last, size);
            forall i :: 0 <= i < |chunks| - 1 ==> chunks[i].1 - chunks[i].0 + 1 == size
    decreases last - first
  {
    if first <= last {
      ChunksAreFull(first + size, last, size);
      assert Chunks(first, last, size)[1..] == Chunks(first + size, last, size);
    }
  }

  /** A provider that answers every range with the logs of its blocks. */
  ghost predicate Faithful(provider: LogProvider, logsOf: int -> seq<string>) {
    forall c: (int, int) :: c.0 <= c.1 ==> provider(c) == Some(FlatMap(BlocksOf(c), logsOf))
  }

  lemma {:induction false} AnswersAreLogs(provider: LogProvider, logsOf: int -> seq<string>, chunks: seq<(int, int)>)
    requires Faithful(provider, logsOf) && forall c :: c in chunks ==> c.0 <= c.1
    ensures FlatMap(chunks, AnsweredBy(provider)) == FlatMap(FlatMap(chunks, BlocksOf), logsOf)
  {
    if chunks == [] {
    } else {
      AnswersAreLogs(provider, logsOf, chunks[1..]);
      assert provider(chunks[0]) == Some(FlatMap(BlocksOf(chunks[0]), logsOf));
      FlatMapAppend(BlocksOf(chunks[0]), FlatMap(chunks[1..], BlocksOf), logsOf);
    }
  }

  /** With such a provider the scan finds the hashes of all blocks, each once, whatever the range size. */
  lemma ScanIsComplete(provider: LogProvider, logsOf: int -> seq<string>, first: int, last: int, size: nat)
    requires size > 0 && Faithful(provider, logsOf)
    ensures Unique(FlatMap(Chunks(first, last, size), AnsweredBy(provider))) == Unique(FlatMap(Blocks(first, last), logsOf))
  {
    ChunksCover(first, last, size);
    ChunksFit(first, last, size);
    AnswersAreLogs(provider, logsOf, Chunks(first, last, size));
  }

  // ---------- Parsing in batches ----------

  type Parser = string -> Option<GasUsageRecord>

  function ParsedBy(parse: Parser): string -> seq<GasUsageRecord> {
    hash => if parse(hash).Some? then [parse(hash).value] else []
  }

  /** The records of the transactions, oldest first. */
  function Exported(hashes: seq<string>, parse: Parser, time: GasUsageRecord -> int): seq<GasUsageRecord> {
    SortBy(FlatMap(hashes, ParsedBy(parse)), time)
  }

  method ParseHashes(hashes: seq<string>, parse: Parser, time: GasUsageRecord -> int, size: nat) returns (records: seq<GasUsageRecord>)
    requires size > 0
    ensures records == Exported(hashes, parse, time)
  {
    records := [];
    var i := 0;
    ghost var done := 0;
    while i < |hashes|
      invariant done == Min(i, |hashes|)
      invariant records == FlatMap(hashes[..done], ParsedBy(parse))
    {
      var end := Min(i + size, |hashes|);
      for j := i to end
        invariant records == FlatMap(hashes[..j], ParsedBy(parse))
      {
        var parsed := parse(hashes[j]);
        assert hashes[..j + 1] == hashes[..j] + [hashes[j]];
        ParsedSnoc(hashes[..j], hashes[j], parse);
        if parsed.Some? {
          records := records + [parsed.value];
        }
      }
      i, done := i + size, end;
    }
    assert hashes[..|hashes|] == hashes;
    records := SortBy(records, time);
  }

  /**
   * The service's own call, with its range and batch sizes: whichever provider answers, the records of the
   * answered ranges; and if the provider is faithful, the records of all blocks.
   */
  method CollectGasRecords(provider: LogProvider, first: int, last: int, parse: Parser, time: GasUsageRecord -> int)
      returns (records: seq<GasUsageRecord>)
    ensures records == Exported(Unique(FlatMap(Chunks(first, last, LOG_CHUNK_SIZE), AnsweredBy(provider))), parse, time)
    ensures forall logsOf :: Faithful(provider, logsOf) ==>
              records == Exported(Unique(FlatMap(Blocks(first, last), logsOf)), parse, time)
  {
    var hashes := CollectWalletTxHashes(provider, first, last, LOG_CHUNK_SIZE);
    forall logsOf | Faithful(provider, logsOf)
      ensures hashes == Unique(FlatMap(Blocks(first, last), logsOf))
    {
      ScanIsComplete(provider, logsOf, first, last, LOG_CHUNK_SIZE);
    }
    if |hashes| == 0 {
      return [];
    }
    records := ParseHashes(hashes, parse, time, TX_BATCH_SIZE);
  }

  lemma ParsedSnoc(hashes: seq<string>, hash: string, parse: Parser)
    ensures FlatMap(hashes + [hash], ParsedBy(parse)) == FlatMap(hashes, ParsedBy(parse)) + ParsedBy(parse)(hash)
  {
    FlatMapAppend(hashes, [hash], ParsedBy(parse));
    assert [hash][1..] == [];
    assert ParsedBy(parse)(hash) + [] == ParsedBy(parse)(hash);
  }

  lemma {:induction false} InParsed(hashes: seq<string>, parse: Parser, r: GasUsageRecord)
    ensures r in FlatMap(hashes, ParsedBy(parse)) <==> exists h :: h in hashes && parse(h) == Some(r)
  {
    if hashes == [] {
    } else {
      InParsed(hashes[1..], parse, r);
      assert forall h :: h in hashes <==> h == hashes[0] || h in hashes[1..];
    }
  }

  /** A record is exported exactly if a transaction parses to it, and every hash that parses gives one record. */
  lemma ExportedExactly(hashes: seq<string>, parse: Parser, time: GasUsageRecord -> int)
    ensures forall r :: r in Exported(hashes, parse, time) <==> exists h :: h in hashes && parse(h) == Some(r)
    ensures |Exported(hashes, parse, time)| == |Filter(hashes, (h: string) => parse(h).Some?)|
  {
    var found := FlatMap(hashes, ParsedBy(parse));
    SortByPermutes(found, time);
    forall r
      ensures r in Exported(hashes, parse, time) <==> exists h :: h in hashes && parse(h) == Some(r)
    {
      InParsed(hashes, parse, r);
      assert r in multiset(SortBy(found, time)) <==> r in multiset(found);
    }
    ParsedCount(hashes, parse);
    assert |multiset(SortBy(found, time))| == |SortBy(found, time)| && |multiset(found)| == |found|;
  }

  lemma {:induction false} ParsedCount(hashes: seq<string>, parse: Parser)
    ensures |FlatMap(hashes, ParsedBy(parse))| == |Filter(hashes, (h: string) => parse(h).Some?)|
  {
    if hashes == [] {
    } else {
      ParsedCount(hashes[1..], parse);
    }
  }

  /** A hash is collected exactly if the answer for some range lists it. */
  lemma {:induction false} CollectedExactly(chunks: seq<(int, int)>, provider: LogProvider, h: string)
    ensures h in Unique(FlatMap(chunks, AnsweredBy(provider)))
       <==> exists c :: c in chunks && provider(c).Some? && h in provider(c).value
  {
    if chunks == [] {
    } else {
      CollectedExactly(chunks[1..], provider, h);
      assert forall c :: c in chunks <==> c == chunks[0] || c in chunks[1..];
      assert FlatMap(chunks, AnsweredBy(provider)) == AnsweredBy(provider)(chunks[0]) + FlatMap(chunks[1..], AnsweredBy(provider));
    }
  }

  /** The records come oldest first, and records of the same time in the order they were found. */
  lemma RecordsAreChronological(found: seq<GasUsageRecord>, time: GasUsageRecord -> int, t: int)
    ensures NonDecreasing(Keys(SortBy(found, time), time))
    ensures multiset(SortBy(found, time)) == multiset(found)
    ensures WithKey(SortBy(found, time), time, t) == WithKey(found, time, t)
  {
    SortBySorts(found, time);
    SortByPermutes(found, time);
    SortByIsStable(found, time, t);
  }
}
