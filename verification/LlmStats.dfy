/**
 * Aggregating LLM usage (src/stats.ts).
 *
 * Per-bucket and per-space accumulators, and totals computed straight from the rows.
 * Counts and durations are whole numbers, costs are exact. A row is a group of calls as
 * the query returns it.
 */
module LlmStats {
  import opened Wrappers
  import opened Text
  import B = Buckets

  datatype Price = Price(input: real, output: real, cacheRead: real)

  datatype Row = Row(space: string, ts: int, kind: string, model: string, calls: nat, input: nat, output: nat,
    cacheRead: nat,
                     durationTotal: nat, durationMax: nat)

  /** An accumulator's value. Calls by kind and by model are kept as multisets; models lists the unpriced ones. */
  datatype Usage = Usage(
    calls: nat, input: nat, output: nat, cacheRead: nat,
    costInput: real, costOutput: real, costCacheRead: real,
    unpricedCalls: nat, unpricedInput: nat, unpricedOutput: nat, unpricedCacheRead: nat, models: set<string>,
    durationTotal: nat, durationMax: nat, byKind: multiset<string>, byModel: multiset<string>)

  function Max(a: nat, b: nat): nat { if a >= b then a else b }

  function Zero(): Usage { Usage(0, 0, 0, 0, 0.0, 0.0, 0.0, 0, 0, 0, 0, {}, 0, 0, multiset{}, multiset{}) }

  function Plus(a: Usage, b: Usage): Usage {
    Usage(a.calls + b.calls, a.input + b.input, a.output + b.output, a.cacheRead + b.cacheRead,
          a.costInput + b.costInput, a.costOutput + b.costOutput, a.costCacheRead + b.costCacheRead,
          a.unpricedCalls + b.unpricedCalls, a.unpricedInput + b.unpricedInput, a.unpricedOutput + b.unpricedOutput,
          a.unpricedCacheRead + b.unpricedCacheRead, a.models + b.models,
          a.durationTotal + b.durationTotal, Max(a.durationMax, b.durationMax), a.byKind + b.byKind,
            a.byModel + b.byModel)
  }

  lemma PlusLaws(a: Usage, b: Usage, c: Usage)
    ensures Plus(a, Plus(b, c)) == Plus(Plus(a, b), c) && Plus(a, b) == Plus(b, a) && Plus(a, Zero()) == a
  {
  }

  type Prices = map<string, Price>

  function Times(name: string, n: nat): multiset<string> { multiset{}[name := n] }

  /** Prices are per million tokens. */
  function Cost(tokens: nat, price: real): real { tokens as real * price / 1000000.0 }

  lemma NoCost(tokens: nat)
    ensures Cost(tokens, 0.0) == 0.0
  {
  }

  lemma TimesAdds(m: multiset<string>, name: string, n: nat)
    ensures m[name := m[name] + n] == m + Times(name, n)
  {
  }

  /** A million tokens cost exactly the price, and costs are proportional. */
  lemma CostIsPerMillion(tokens: nat, more: nat, price: real)
    ensures Cost(1_000_000, price) == price && Cost(0, price) == 0.0
    ensures Cost(tokens + more, price) == Cost(tokens, price) + Cost(more, price)
  {
  }

  /** Each component of a row's cost is its own tokens at its own price; without a price everything is unpriced. */
  lemma RowCosts(row: Row, prices: Prices)
    ensures row.model in prices ==>
      && Of(row, prices).costInput == Cost(row.input, prices[row.model].input)
      && Of(row, prices).costOutput == Cost(row.output, prices[row.model].output)
      && Of(row, prices).costCacheRead == Cost(row.cacheRead, prices[row.model].cacheRead)
      && Of(row, prices).unpricedCalls == Of(row, prices).unpricedInput == Of(row, prices).unpricedOutput == 0
      && Of(row, prices).unpricedCacheRead == 0 && Of(row, prices).models == {}
    ensures row.model !in prices ==>
      && Of(row, prices).costInput == Of(row, prices).costOutput == Of(row, prices).costCacheRead == 0.0
      && Of(row, prices).unpricedCalls == row.calls && Of(row, prices).unpricedInput == row.input
      && Of(row, prices).unpricedOutput == row.output && Of(row, prices).unpricedCacheRead == row.cacheRead
      && Of(row, prices).models == {row.model}
    ensures Of(row, prices).calls == row.calls && Of(row, prices).input == row.input
    ensures Of(row, prices).output == row.output && Of(row, prices).cacheRead == row.cacheRead
    ensures Of(row, prices).durationTotal == row.durationTotal && Of(row, prices).durationMax == row.durationMax
    ensures forall name :: Of(row, prices).byKind[name] == if name == row.kind then row.calls else 0
    ensures forall name :: Of(row, prices).byModel[name] == if name == row.model then row.calls else 0
  {
  }

  /** What one row contributes. */
  function Of(row: Row, prices: Prices): Usage {
    var priced := row.model in prices;
    var p := if priced then prices[row.model] else Price(0.0, 0.0, 0.0);
    Usage(row.calls, row.input, row.output, row.cacheRead,
          Cost(row.input, p.input), Cost(row.output, p.output), Cost(row.cacheRead, p.cacheRead),
          if priced then 0 else row.calls, if priced then 0 else row.input, if priced then 0 else row.output,
          if priced then 0 else row.cacheRead, if priced then {} else {row.model},
          row.durationTotal, row.durationMax, Times(row.kind, row.calls), Times(row.model, row.calls))
  }

  /** The total of some rows, straight from the rows. */
  function Total(rows: seq<Row>, prices: Prices): Usage {
    if rows == [] then Zero() else Plus(Total(rows[..|rows| - 1], prices), Of(rows[|rows| - 1], prices))
  }

  // ----------------------------------------------------------- accumulator

  /** One mutable accumulator, updated a few counters at a time. */
  class Accumulator {
    var usage: Usage

    constructor ()
      ensures usage == Zero()
    {
      usage := Zero();
    }

    /** applyLlmRow */
    method Apply(row: Row, prices: Prices)
      modifies this
      ensures usage == Plus(old(usage), Of(row, prices))
    {
      ghost var was := usage;
      Count(row);
      Group(row);
      ApplyPrice(row, prices);
      assert usage == Priced(Grouped(Counted(was, row), row), Of(row, prices));
    }

    method Count(row: Row)
      modifies this
      ensures usage == Counted(old(usage), row)
    {
      usage := usage.(calls := usage.calls + row.calls);
      usage := usage.(input := usage.input + row.input, output := usage.output + row.output, cacheRead :=
        usage.cacheRead + row.cacheRead);
      usage := usage.(durationTotal := usage.durationTotal + row.durationTotal);
      if row.durationMax > usage.durationMax { usage := usage.(durationMax := row.durationMax); }
    }

    method Group(row: Row)
      modifies this
      ensures usage == Grouped(old(usage), row)
    {
      TimesAdds(usage.byKind, row.kind, row.calls);
      TimesAdds(usage.byModel, row.model, row.calls);
      usage := usage.(byKind := usage.byKind[row.kind := usage.byKind[row.kind] + row.calls]);
      usage := usage.(byModel := usage.byModel[row.model := usage.byModel[row.model] + row.calls]);
    }

    method ApplyPrice(row: Row, prices: Prices)
      modifies this
      ensures usage == Priced(old(usage), Of(row, prices))
    {
      NoCost(row.input);
      NoCost(row.output);
      NoCost(row.cacheRead);
      if row.model in prices {
        var p := prices[row.model];
        usage := usage.(costInput := usage.costInput + Cost(row.input, p.input));
        usage := usage.(costOutput := usage.costOutput + Cost(row.output, p.output));
        usage := usage.(costCacheRead := usage.costCacheRead + Cost(row.cacheRead, p.cacheRead));
      } else {
        usage := usage.(unpricedCalls := usage.unpricedCalls + row.calls, unpricedInput :=
          usage.unpricedInput + row.input);
        usage := usage.(unpricedOutput := usage.unpricedOutput + row.output, unpricedCacheRead :=
          usage.unpricedCacheRead + row.cacheRead);
        usage := usage.(models := usage.models + {row.model});
      }
    }
  }

  /** The price-independent counters of a row added to a. */
  function Counted(a: Usage, row: Row): Usage {
    a.(calls := a.calls + row.calls, input := a.input + row.input, output := a.output + row.output, cacheRead :=
      a.cacheRead + row.cacheRead,
       durationTotal := a.durationTotal + row.durationTotal, durationMax := Max(a.durationMax, row.durationMax))
  }

  function Grouped(a: Usage, row: Row): Usage {
    a.(byKind := a.byKind + Times(row.kind, row.calls), byModel := a.byModel + Times(row.model, row.calls))
  }

  /** The price-dependent counters of b added to a. */
  function Priced(a: Usage, b: Usage): Usage {
    a.(costInput := a.costInput + b.costInput, costOutput := a.costOutput + b.costOutput, costCacheRead :=
      a.costCacheRead + b.costCacheRead,
       unpricedCalls := a.unpricedCalls + b.unpricedCalls, unpricedInput := a.unpricedInput + b.unpricedInput,
       unpricedOutput := a.unpricedOutput + b.unpricedOutput, unpricedCacheRead :=
         a.unpricedCacheRead + b.unpricedCacheRead,
       models := a.models + b.models)
  }

  // ---------------------------------------------------------- aggregation

  /** The rows with a given key. */
  function Part<K(==)>(rows: seq<Row>, key: Row -> K, k: K): seq<Row> {
    if rows == [] then []
    else Part(rows[..|rows| - 1], key, k) + if key(rows[|rows| - 1]) == k then [rows[|rows| - 1]] else []
  }

  function ByTs(): Row -> int { (row: Row) => row.ts }

  /** The rows of one bucket. */
  function At(rows: seq<Row>, ts: int): seq<Row> { Part(rows, ByTs(), ts) }

  /** Each accumulator its own object, holding what totals says of its bucket; buckets not seen hold nothing. */
  ghost predicate Holds(byTs: map<int, Accumulator>, totals: int -> Usage)
    reads set ts | ts in byTs :: byTs[ts]
  {
    && (forall a, b :: a in byTs && b in byTs && a != b ==> byTs[a] != byTs[b])
    && (forall ts :: ts in byTs ==> byTs[ts].usage == totals(ts))
    && (forall ts :: ts !in byTs ==> totals(ts) == Zero())
  }

  /** One row into its bucket's accumulator, made when the bucket is first seen. */
  method FoldRow(byTs: map<int, Accumulator>, row: Row, prices: Prices, ghost before: int -> Usage,
    ghost later: int -> Usage)
    returns (after: map<int, Accumulator>)
    requires Holds(byTs, before)
    requires forall ts :: later(ts) == if ts == row.ts then Plus(before(ts), Of(row, prices)) else before(ts)
    modifies set ts | ts in byTs :: byTs[ts]
    ensures Holds(after, later)
    ensures forall ts :: ts in after ==> fresh(after[ts]) || (ts in byTs && after[ts] == byTs[ts])
  {
    var values: Accumulator;
    if row.ts in byTs { values := byTs[row.ts]; } else { values := new Accumulator(); }
    values.Apply(row, prices);
    after := byTs[row.ts := values];
  }

  lemma TotalsGrow(rows: seq<Row>, i: nat, prices: Prices, ts: int)
    requires i < |rows|
    ensures Total(At(rows[..i + 1], ts), prices)
      == if ts == rows[i].ts then Plus(Total(At(rows[..i], ts), prices), Of(rows[i], prices))
        else Total(At(rows[..i], ts), prices)
  {
    assert rows[..i + 1][..i] == rows[..i];
    var was := At(rows[..i], ts);
    if ts == rows[i].ts { assert (was + [rows[i]])[..|was|] == was; } else { assert was + [] == was; }
  }

  /** byTs after folding the rows. */
  method FoldRows(rows: seq<Row>, prices: Prices) returns (byTs: map<int, Accumulator>)
    ensures forall ts :: ts in byTs ==> fresh(byTs[ts])
    ensures Holds(byTs, ts => Total(At(rows, ts), prices))
  {
    byTs := map[];
    for i := 0 to |rows|
      invariant forall ts :: ts in byTs ==> fresh(byTs[ts])
      invariant Holds(byTs, ts => Total(At(rows[..i], ts), prices))
    {
      forall ts ensures Total(At(rows[..i + 1], ts), prices)
        == if ts == rows[i].ts then Plus(Total(At(rows[..i], ts), prices), Of(rows[i], prices))
          else Total(At(rows[..i], ts), prices)
      {
        TotalsGrow(rows, i, prices, ts);
      }
      byTs := FoldRow(byTs, rows[i], prices, ts => Total(At(rows[..i], ts), prices), ts =>
        Total(At(rows[..i + 1], ts), prices));
    }
    assert rows[..|rows|] == rows;
  }

  /** The totals, straight from the rows. */
  method Sum(rows: seq<Row>, prices: Prices) returns (totals: Usage)
    ensures totals == Total(rows, prices)
  {
    var sum := new Accumulator();
    for i := 0 to |rows|
      invariant fresh(sum) && sum.usage == Total(rows[..i], prices)
    {
      assert rows[..i + 1][..i] == rows[..i];
      sum.Apply(rows[i], prices);
    }
    assert rows[..|rows|] == rows;
    totals := sum.usage;
  }

  /** A quotient, kept as its two parts; nothing by nothing is shown as 0 or as null. */
  datatype Quotient = Quotient(sum: nat, count: nat)

  /** What is shown of a value: combined totals, the share of input read from the cache, the average duration. */
  datatype Report = Report(
    usage: Usage, tokens: nat, cost: real, unpricedTokens: nat, hitRatio: Quotient, averageDuration: Quotient)

  function Over(sum: nat, count: nat): Quotient { if count > 0 then Quotient(sum, count) else Quotient(0, 0) }

  /** finishLlm */
  function Finish(u: Usage): Report {
    Report(u, u.input + u.output + u.cacheRead, u.costInput + u.costOutput + u.costCacheRead,
           u.unpricedInput + u.unpricedOutput + u.unpricedCacheRead,
           Over(u.cacheRead, u.input + u.cacheRead), Over(u.durationTotal, u.calls))
  }

  /** Durations are of calls. */
  predicate Timed(u: Usage) { u.calls == 0 ==> u.durationTotal == 0 }

  /** One value per bucket key, and that of all rows. */
  method Collect(rows: seq<Row>, keys: seq<int>, prices: Prices) returns (buckets: seq<(int, Usage)>, totals: Usage)
    ensures |buckets| == |keys|
    ensures forall k :: 0 <= k < |keys| ==> buckets[k] == (keys[k], Total(At(rows, keys[k]), prices))
    ensures totals == Total(rows, prices)
  {
    var byTs := FoldRows(rows, prices);
    buckets := [];
    for k := 0 to |keys|
      invariant |buckets| == k && forall j :: 0 <= j < k ==> buckets[j] == (keys[j], Total(At(rows, keys[j]), prices))
    {
      buckets := buckets + [(keys[k], if keys[k] in byTs then byTs[keys[k]].usage else Zero())];
    }
    totals := Sum(rows, prices);
  }

  /** aggregateLlm: one report per bucket key, in order, and that of all rows. */
  method Aggregate(rows: seq<Row>, keys: seq<int>, prices: Prices) returns (buckets: seq<(int, Report)>, totals: Report)
    ensures |buckets| == |keys| && forall k :: 0 <= k < |keys| ==>
      buckets[k] == (keys[k], Finish(Total(At(rows, keys[k]), prices)))
    ensures totals == Finish(Total(rows, prices))
  {
    var values, sum := Collect(rows, keys, prices);
    buckets := seq(|values|, k requires 0 <= k < |values| => (values[k].0, Finish(values[k].1)));
    totals := Finish(sum);
  }

  // --------------------------------------------------------- conservation

  /** The rows whose key is not among some keys. */
  function Outside<K(==)>(rows: seq<Row>, key: Row -> K, keys: seq<K>): seq<Row> {
    if rows == [] then []
    else
      var last := rows[|rows| - 1];
      Outside(rows[..|rows| - 1], key, keys) + if key(last) in keys then [] else [last]
  }

  /** The sum of the parts' totals. */
  function PartSums<K(==)>(rows: seq<Row>, key: Row -> K, keys: seq<K>, prices: Prices): Usage {
    if keys == [] then Zero()
    else Plus(PartSums(rows, key, keys[..|keys| - 1], prices), Total(Part(rows, key, keys[|keys| - 1]), prices))
  }

  lemma TotalOneMore(rows: seq<Row>, row: Row, prices: Prices)
    ensures Total(rows + [row], prices) == Plus(Total(rows, prices), Of(row, prices))
  {
    assert (rows + [row])[..|rows|] == rows;
  }

  lemma PartOneMore<K>(rows: seq<Row>, row: Row, key: Row -> K, k: K)
    ensures Part(rows + [row], key, k) == if key(row) == k then Part(rows, key, k) + [row] else Part(rows, key, k)
  {
    assert (rows + [row])[..|rows|] == rows;
    assert Part(rows, key, k) + [] == Part(rows, key, k);
  }

  lemma {:induction false} NoRowsNoSums<K>(key: Row -> K, keys: seq<K>, prices: Prices)
    ensures PartSums([], key, keys, prices) == Zero()
    decreases |keys|
  {
    if keys != [] {
      NoRowsNoSums(key, keys[..|keys| - 1], prices);
      assert Total(Part([], key, keys[|keys| - 1]), prices) == Zero();
      PlusLaws(Zero(), Zero(), Zero());
    }
  }

  /** A row adds itself to the sum of the parts when its key is listed, and nothing otherwise. */
  lemma {:induction false} OneMoreRow<K>(rows: seq<Row>, row: Row, key: Row -> K, keys: seq<K>, prices: Prices)
    requires NoRepeats(keys)
    ensures PartSums(rows + [row], key, keys, prices)
      == if key(row) in keys then Plus(PartSums(rows, key, keys, prices), Of(row, prices))
        else PartSums(rows, key, keys, prices)
    decreases |keys|
  {
    if keys != [] {
      var init, k := keys[..|keys| - 1], keys[|keys| - 1];
      OneMoreRow(rows, row, key, init, prices);
      assert keys == init + [k] && k !in init;
      PartOneMore(rows, row, key, k);
      var sums, part, own := PartSums(rows, key, init, prices), Total(Part(rows, key, k), prices), Of(row, prices);
      if key(row) == k {
        TotalOneMore(Part(rows, key, k), row, prices);
        PlusLaws(sums, part, own);
      } else {
        Swap(sums, own, part);
      }
    }
  }

  lemma Swap(a: Usage, b: Usage, c: Usage)
    ensures Plus(Plus(a, b), c) == Plus(Plus(a, c), b)
  {
  }

  /** Conservation: the parts' totals and the rows outside every part make up the total of all rows. */
  lemma {:induction false} PartsAndRestAreAll<K>(rows: seq<Row>, key: Row -> K, keys: seq<K>, prices: Prices)
    requires NoRepeats(keys)
    ensures Plus(PartSums(rows, key, keys, prices), Total(Outside(rows, key, keys), prices)) == Total(rows, prices)
    decreases |rows|
  {
    if rows == [] {
      NoRowsNoSums(key, keys, prices);
      PlusLaws(Zero(), Zero(), Zero());
    } else {
      var init, row := rows[..|rows| - 1], rows[|rows| - 1];
      PartsAndRestAreAll(init, key, keys, prices);
      assert rows == init + [row];
      OneMoreRow(init, row, key, keys, prices);
      OneMoreOutside(init, row, key, keys, prices);
      var sums, rest, own := PartSums(init, key, keys, prices), Total(Outside(init, key, keys), prices),
        Of(row, prices);
      if key(row) in keys { Swap(sums, own, rest); } else { PlusLaws(sums, rest, own); }
    }
  }

  lemma OneMoreOutside<K>(rows: seq<Row>, row: Row, key: Row -> K, keys: seq<K>, prices: Prices)
    ensures Total(Outside(rows + [row], key, keys), prices)
      == if key(row) in keys then Total(Outside(rows, key, keys), prices)
        else Plus(Total(Outside(rows, key, keys), prices), Of(row, prices))
  {
    var rest := Outside(rows, key, keys);
    assert (rows + [row])[..|rows|] == rows;
    if key(row) in keys { assert rest + [] == rest; } else { assert (rest + [row])[..|rest|] == rest; }
  }

  lemma {:induction false} NothingOutside<K>(rows: seq<Row>, key: Row -> K, keys: seq<K>)
    requires forall i :: 0 <= i < |rows| ==> key(rows[i]) in keys
    ensures Outside(rows, key, keys) == []
    decreases |rows|
  {
    if rows != [] { NothingOutside(rows[..|rows| - 1], key, keys); }
  }

  /** The rows a window's query returns: each carries the start of the bucket of an instant inside the window. */
  ghost predicate InWindow(cal: B.Calendar, b: B.Bucket, from: int, until: int, rows: seq<Row>)
    requires B.Regular(cal)
  {
    forall i :: 0 <= i < |rows| ==> exists t :: from <= t < until && rows[i].ts == B.FloorBucket(cal, b, t)
  }

  /** Summing the buckets a window shows. */
  function BucketSums(buckets: seq<(int, Report)>): Usage {
    if buckets == [] then Zero() else Plus(BucketSums(buckets[..|buckets| - 1]), buckets[|buckets| - 1].1.usage)
  }

  /** What two reports say together: quotients are joined part by part, so each average counts by its calls. */
  function Both(a: Quotient, b: Quotient): Quotient { Quotient(a.sum + b.sum, a.count + b.count) }

  predicate Reported(r: Report) { Timed(r.usage) && r == Finish(r.usage) }

  function Joined(a: Report, b: Report): Report {
    Report(Plus(a.usage, b.usage), a.tokens + b.tokens, a.cost + b.cost, a.unpricedTokens + b.unpricedTokens,
           Both(a.hitRatio, b.hitRatio), Both(a.averageDuration, b.averageDuration))
  }

  function JoinedAll(buckets: seq<(int, Report)>): Report {
    if buckets == [] then Finish(Zero()) else Joined(JoinedAll(buckets[..|buckets| - 1]), buckets[|buckets| - 1].1)
  }

  lemma ReportOfSum(a: Usage, b: Usage)
    requires Timed(a) && Timed(b)
    ensures Timed(Plus(a, b)) && Finish(Plus(a, b)) == Joined(Finish(a), Finish(b))
  {
    RatioOfSum(a, b);
    AverageOfSum(a, b);
    TotalsOfSum(a, b);
  }

  lemma OverAdds(sum: nat, count: nat, more: nat, others: nat)
    requires (count == 0 ==> sum == 0) && (others == 0 ==> more == 0)
    ensures Over(sum + more, count + others) == Both(Over(sum, count), Over(more, others))
  {
  }

  lemma RatioOfSum(a: Usage, b: Usage)
    ensures Finish(Plus(a, b)).hitRatio == Both(Finish(a).hitRatio, Finish(b).hitRatio)
  {
    OverAdds(a.cacheRead, a.input + a.cacheRead, b.cacheRead, b.input + b.cacheRead);
  }

  lemma AverageOfSum(a: Usage, b: Usage)
    requires Timed(a) && Timed(b)
    ensures Timed(Plus(a, b))
    ensures Finish(Plus(a, b)).averageDuration == Both(Finish(a).averageDuration, Finish(b).averageDuration)
  {
    var sum := Plus(a, b);
    assert sum.durationTotal == a.durationTotal + b.durationTotal && sum.calls == a.calls + b.calls;
    assert Finish(sum).averageDuration == Over(sum.durationTotal, sum.calls);
    OverAdds(a.durationTotal, a.calls, b.durationTotal, b.calls);
  }

  lemma TotalsOfSum(a: Usage, b: Usage)
    ensures Finish(Plus(a, b)).tokens == Finish(a).tokens + Finish(b).tokens
    ensures Finish(Plus(a, b)).cost == Finish(a).cost + Finish(b).cost
    ensures Finish(Plus(a, b)).unpricedTokens == Finish(a).unpricedTokens + Finish(b).unpricedTokens
  {
  }

  /** The report of a sum says what the reports of its parts say together. */
  lemma {:induction false} ReportsAddUp(buckets: seq<(int, Report)>)
    requires forall k :: 0 <= k < |buckets| ==> Reported(buckets[k].1)
    ensures Timed(BucketSums(buckets)) && Finish(BucketSums(buckets)) == JoinedAll(buckets)
    decreases |buckets|
  {
    if buckets != [] {
      var init, last := buckets[..|buckets| - 1], buckets[|buckets| - 1].1;
      ReportsAddUp(init);
      assert Reported(last);
      ReportOfSum(BucketSums(init), last.usage);
    }
  }

  lemma {:induction false} BucketsArePartSums(rows: seq<Row>, keys: seq<int>, buckets: seq<(int, Report)>,
    prices: Prices)
    requires |buckets| == |keys| && forall k :: 0 <= k < |keys| ==>
      buckets[k] == (keys[k], Finish(Total(At(rows, keys[k]), prices)))
    ensures BucketSums(buckets) == PartSums(rows, ByTs(), keys, prices)
    decreases |keys|
  {
    if keys != [] {
      BucketsArePartSums(rows, keys[..|keys| - 1], buckets[..|keys| - 1], prices);
    }
  }

  /** getLlmStats: over any window the buckets shown add up to the totals shown. */
  method WindowStats(cal: B.Calendar, b: B.Bucket, from: int, until: int, rows: seq<Row>, prices: Prices)
    returns (buckets: seq<(int, Report)>, totals: Report)
    requires B.Regular(cal) && from < until && InWindow(cal, b, from, until, rows)
    ensures BucketSums(buckets) == totals.usage && totals == Finish(Total(rows, prices))
    ensures forall t :: from <= t < until ==> exists k :: 0 <= k < |buckets| && buckets[k].0 == B.FloorBucket(cal, b, t)
  {
    var keys := B.BucketKeys(cal, b, from, until);
    buckets, totals := Aggregate(rows, keys, prices);
    BucketsArePartSums(rows, keys, buckets, prices);
    var key := ByTs();
    assert NoRepeats(keys);
    forall i | 0 <= i < |rows| ensures key(rows[i]) in keys {
      var t :| from <= t < until && rows[i].ts == B.FloorBucket(cal, b, t);
    }
    NothingOutside(rows, key, keys);
    PartsAndRestAreAll(rows, key, keys, prices);
    PlusLaws(BucketSums(buckets), Zero(), Zero());
    forall t | from <= t < until ensures exists k :: 0 <= k < |buckets| && buckets[k].0 == B.FloorBucket(cal, b, t) {
      var k :| 0 <= k < |keys| && keys[k] == B.FloorBucket(cal, b, t);
      assert buckets[k].0 == keys[k];
    }
  }

  /** getLlmStatsAcrossSpaces: the per-space totals add up to the totals over all the spaces asked for. */
  lemma SpacesAddUp(rows: seq<Row>, spaces: seq<string>, prices: Prices)
    requires NoRepeats(spaces) && forall i :: 0 <= i < |rows| ==> rows[i].space in spaces
    ensures PartSums(rows, (row: Row) => row.space, spaces, prices) == Total(rows, prices)
  {
    var key := (row: Row) => row.space;
    NothingOutside(rows, key, spaces);
    PartsAndRestAreAll(rows, key, spaces, prices);
    PlusLaws(PartSums(rows, key, spaces, prices), Zero(), Zero());
  }
}
