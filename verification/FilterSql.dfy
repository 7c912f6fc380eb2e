/**
 * The statement builders (src/db/postgres.ts).
 *
 * PostgREST-style filter maps compiled to parameterised clauses, and the insert, update
 * and delete statements built on them. A clause is kept as its structure; a number is
 * the placeholder $n it prints.
 */
module FilterSql {
  import opened Wrappers
  import opened Text

  /** A stored value: NULL or text. A row maps its columns to values. */
  type Value = Option<string>
  type Row = map<string, Value>

  /** How the database compares a stored value with a parameter, column by column. */
  datatype Compare = Compare(eq: (string, string, string) -> bool, le: (string, string, string) -> bool)

  /** One entry of a filter map: None is undefined, anything else has been made a string. */
  datatype Filter = Filter(column: string, raw: Option<string>)

  datatype Clause = IsNull(column: string) | NotNull(column: string) | Eq(column: string, at: nat)
    | Lte(column: string, at: nat)
                  | In(column: string, ats: seq<nat>) | Never

  datatype Error = BadIdentifier(name: string) | Unsupported(column: string) | BadDirection | BadLimit | BadShape
    | NoConflictTarget | Unfiltered

  // ------------------------------------------------------------- lexical

  predicate LowerLetter(c: char) { 'a' <= c <= 'z' }

  predicate Identifier(s: string) {
    && s != "" && LowerLetter(s[0])
    && forall i :: 1 <= i < |s| ==> LowerLetter(s[i]) || '0' <= s[i] <= '9' || s[i] == '_'
  }

  predicate Starts(s: string, prefix: string) { prefix <= s }

  predicate Ends(s: string, suffix: string) { |suffix| <= |s| && s[|s| - |suffix|..] == suffix }

  function NonEmpty(parts: seq<string>): seq<string> {
    if parts == [] then []
    else NonEmpty(parts[..|parts| - 1]) + if parts[|parts| - 1] == "" then [] else [parts[|parts| - 1]]
  }

  /** The entries of in.(a,b,...). */
  function Entries(expression: string): seq<string>
    requires Starts(expression, "in.(") && Ends(expression, ")") && |expression| >= 5
  {
    NonEmpty(Split(expression[4..|expression| - 1], ','))
  }

  predicate InForm(e: string) { Starts(e, "in.(") && Ends(e, ")") && |e| >= 5 }

  predicate Supported(e: string) {
    e == "is.null" || e == "not.is.null" || Starts(e, "eq.") || Starts(e, "lte.") || InForm(e)
  }

  /** order, limit and undefined entries are not filters. */
  predicate Filtering(f: Filter) { f.column != "order" && f.column != "limit" && f.raw.Some? }

  // ------------------------------------------------------------- meaning

  function Stored(row: Row, column: string): Value { if column in row then row[column] else None }

  /** What a filter says about a row, read off its text. */
  predicate Matches(cmp: Compare, f: Filter, row: Row) {
    !Filtering(f) ||
    var e, v := f.raw.value, Stored(row, f.column);
    if e == "is.null" then v.None?
    else if e == "not.is.null" then v.Some?
    else if Starts(e, "eq.") then v.Some? && cmp.eq(f.column, v.value, e[3..])
    else if Starts(e, "lte.") then v.Some? && cmp.le(f.column, v.value, e[4..])
    else if InForm(e) then v.Some? && exists x :: x in Entries(e) && cmp.eq(f.column, v.value, x)
    else false
  }

  predicate MatchesAll(cmp: Compare, filters: seq<Filter>, row: Row) {
    forall i :: 0 <= i < |filters| ==> Matches(cmp, filters[i], row)
  }

  /** SQL truth: a comparison with NULL is unknown, and WHERE keeps the rows for which the conjunction is true. */
  datatype Truth = True | False | Unknown

  function OfBool(b: bool): Truth { if b then True else False }

  function Compared(stored: Value, param: Value, holds: (string, string) -> bool): Truth {
    if stored.None? || param.None? then Unknown else OfBool(holds(stored.value, param.value))
  }

  predicate EqualTo(cmp: Compare, column: string, stored: string, param: Value) {
    param.Some? && cmp.eq(column, stored, param.value)
  }

  /** The parameter placeholder $at stands for; one without a parameter would be NULL. */
  function Param(values: seq<Value>, at: nat): Value { if 1 <= at <= |values| then values[at - 1] else None }

  function Eval(cmp: Compare, c: Clause, values: seq<Value>, row: Row): Truth {
    match c
    case IsNull(column) => OfBool(Stored(row, column).None?)
    case NotNull(column) => OfBool(Stored(row, column).Some?)
    case Eq(column, at) => Compared(Stored(row, column), Param(values, at), (v, p) => cmp.eq(column, v, p))
    case Lte(column, at) => Compared(Stored(row, column), Param(values, at), (v, p) => cmp.le(column, v, p))
    case In(column, ats) =>
      (if Stored(row, column).None? then Unknown
       else if exists k :: 0 <= k < |ats| && EqualTo(cmp, column, Stored(row, column).value, Param(values, ats[k]))
         then True
       else if exists k :: 0 <= k < |ats| && Param(values, ats[k]).None? then Unknown else False)
    case Never => False
  }

  /** Conjunction: false wins, then unknown. */
  function And(a: Truth, b: Truth): Truth {
    if a == False || b == False then False else if a == Unknown || b == Unknown then Unknown else True
  }

  function Conjoin(cmp: Compare, clauses: seq<Clause>, values: seq<Value>, row: Row): Truth {
    if clauses == [] then True else And(Eval(cmp, clauses[0], values, row), Conjoin(cmp, clauses[1..], values, row))
  }

  predicate Selects(cmp: Compare, clauses: seq<Clause>, values: seq<Value>, row: Row) {
    Conjoin(cmp, clauses, values, row) == True
  }

  // --------------------------------------------------------- placeholders

  function Slots(c: Clause): seq<nat> {
    match c
    case Eq(_, at) => [at]
    case Lte(_, at) => [at]
    case In(_, ats) => ats
    case _ => []
  }

  function AllSlots(clauses: seq<Clause>): seq<nat> {
    if clauses == [] then [] else Slots(clauses[0]) + AllSlots(clauses[1..])
  }

  /** base + 1, base + 2, ..., base + n */
  function Run(base: nat, n: nat): (r: seq<nat>)
    ensures |r| == n
  {
    if n == 0 then [] else Run(base, n - 1) + [base + n]
  }

  lemma {:induction false} RunAt(base: nat, n: nat, k: nat)
    requires k < n
    ensures Run(base, n)[k] == base + k + 1
    decreases n
  {
    if k < n - 1 { RunAt(base, n - 1, k); }
  }

  lemma {:induction false} RunsJoin(base: nat, m: nat, n: nat)
    ensures Run(base, m) + Run(base + m, n) == Run(base, m + n)
    decreases n
  {
    if n > 0 {
      RunsJoin(base, m, n - 1);
      assert Run(base, m) + (Run(base + m, n - 1) + [base + m + n])
        == (Run(base, m) + Run(base + m, n - 1)) + [base + m + n];
    } else {
      assert Run(base, m) + [] == Run(base, m);
    }
  }

  // ------------------------------------------------------------ compiling

  function FilterError(f: Filter): Option<Error> {
    if !Filtering(f) then None
    else if !Identifier(f.column) then Some(BadIdentifier(f.column))
    else if !Supported(f.raw.value) then Some(Unsupported(f.column))
    else None
  }

  function FirstError(filters: seq<Filter>): Option<Error> {
    if filters == [] then None
    else if FilterError(filters[0]).Some? then FilterError(filters[0])
    else FirstError(filters[1..])
  }

  /** An in-list is the texts between its commas, but for empty ones. */
  lemma EntriesAre(entries: seq<string>)
    requires entries != [] && AllFree(entries, ',') && |Join(entries, ',')| > 0
    ensures var e := "in.(" + Join(entries, ',') + ")";
      && InForm(e) && forall x :: x in Entries(e) <==> x in entries && x != ""
  {
    var text := Join(entries, ',');
    var e := "in.(" + text + ")";
    assert e[..4] == "in.(" && e[|e| - 1..] == ")" && e[4..|e| - 1] == text;
    SplitJoin(entries, ',');
    forall x ensures x in NonEmpty(entries) <==> x in entries && x != "" { NonEmptyIs(entries, x); }
  }

  lemma {:induction false} NonEmptyIs(parts: seq<string>, x: string)
    ensures x in NonEmpty(parts) <==> x in parts && x != ""
    decreases |parts|
  {
    if parts != [] {
      NonEmptyIs(parts[..|parts| - 1], x);
      assert parts == parts[..|parts| - 1] + [parts[|parts| - 1]];
    }
  }

  /** A lower-case letter, then lower-case letters, digits and underscores: nothing that could end a quoted name. */
  predicate PlainName(s: string) {
    |s| > 0 && 'a' <= s[0] <= 'z'
    && forall c :: c in s ==> 'a' <= c <= 'z' || '0' <= c <= '9' || c == '_'
  }

  predicate PlainForm(e: string) {
    || e == "is.null" || e == "not.is.null" || (|e| >= 3 && e[..3] == "eq.") || (|e| >= 4 && e[..4] == "lte.")
    || (|e| >= 5 && e[..4] == "in.(" && e[|e| - 1] == ')')
  }

  lemma PlainIs(column: string, e: string)
    ensures Identifier(column) <==> PlainName(column)
    ensures Supported(e) <==> PlainForm(e)
  {
    if PlainName(column) {
      forall i | 0 <= i < |column| ensures column[i] in column { }
    }
    if |e| >= 5 { assert e[|e| - 1..] == [e[|e| - 1]]; }
  }

  predicate Accepted(f: Filter) {
    f.column == "order" || f.column == "limit" || f.raw.None? || (PlainName(f.column) && PlainForm(f.raw.value))
  }

  /** Filter maps are refused for a column that is no plain name, or an expression of none of the five forms. */
  lemma {:induction false} RefusedFilters(filters: seq<Filter>)
    ensures FirstError(filters).None? <==> forall f :: f in filters ==> Accepted(f)
    decreases |filters|
  {
    if filters != [] {
      var f := filters[0];
      if f.raw.Some? { PlainIs(f.column, f.raw.value); }
      assert FilterError(f).None? <==> Accepted(f);
      RefusedFilters(filters[1..]);
      assert filters == [f] + filters[1..];
    }
  }

  /** A filter, read. */
  datatype Test = HasNull(column: string) | HasValue(column: string) | Equals(column: string, text: string)
    | AtMost(column: string, text: string)
                | OneOf(column: string, entries: seq<string>)

  function TestOf(f: Filter): Test
    requires Filtering(f) && FilterError(f).None?
  {
    var e := f.raw.value;
    if e == "is.null" then HasNull(f.column)
    else if e == "not.is.null" then HasValue(f.column)
    else if Starts(e, "eq.") then Equals(f.column, e[3..])
    else if Starts(e, "lte.") then AtMost(f.column, e[4..])
    else OneOf(f.column, Entries(e))
  }

  predicate Compilable(filters: seq<Filter>) { forall i :: 0 <= i < |filters| ==> FilterError(filters[i]).None? }

  /** The tests of the entries that are filters. */
  function Tests(filters: seq<Filter>): seq<Test>
    requires Compilable(filters)
  {
    if filters == [] then []
    else if Filtering(filters[0]) then [TestOf(filters[0])] + Tests(filters[1..])
    else Tests(filters[1..])
  }

  /** The parameters a test contributes. */
  function ParamsOf(t: Test): seq<Value> {
    match t
    case HasNull(_) => []
    case HasValue(_) => []
    case Equals(_, text) => [Some(text)]
    case AtMost(_, text) => [Some(text)]
    case OneOf(_, entries) => Wrapped(entries)
  }

  function Wrapped(entries: seq<string>): (r: seq<Value>)
    ensures |r| == |entries|
  {
    if entries == [] then [] else Wrapped(entries[..|entries| - 1]) + [Some(entries[|entries| - 1])]
  }

  lemma {:induction false} WrappedAt(entries: seq<string>, k: nat)
    requires k < |entries|
    ensures Wrapped(entries)[k] == Some(entries[k])
    decreases |entries|
  {
    if k < |entries| - 1 { WrappedAt(entries[..|entries| - 1], k); }
  }

  /** A test's clause, when base parameters came before it. */
  function ClauseOf(t: Test, base: nat): Clause {
    match t
    case HasNull(column) => IsNull(column)
    case HasValue(column) => NotNull(column)
    case Equals(column, _) => Eq(column, base + 1)
    case AtMost(column, _) => Lte(column, base + 1)
    case OneOf(column, entries) => if entries == [] then Never else In(column, Run(base, |entries|))
  }

  function Concat<T>(f: T -> seq<Value>, s: seq<T>): seq<Value> {
    if s == [] then [] else f(s[0]) + Concat(f, s[1..])
  }

  function Params(tests: seq<Test>): seq<Value> { Concat(ParamsOf, tests) }

  function Clauses(tests: seq<Test>, base: nat): seq<Clause> {
    if tests == [] then [] else [ClauseOf(tests[0], base)] + Clauses(tests[1..], base + |ParamsOf(tests[0])|)
  }

  /** One filter's clause, appending its parameters to values. */
  method CompileFilter(f: Filter, before: seq<Value>) returns (c: Clause, values: seq<Value>)
    requires Filtering(f) && FilterError(f).None?
    ensures c == ClauseOf(TestOf(f), |before|) && values == before + ParamsOf(TestOf(f))
  {
    var e := f.raw.value;
    values := before;
    if e == "is.null" { return IsNull(f.column), before; }
    if e == "not.is.null" { return NotNull(f.column), before; }
    if Starts(e, "eq.") {
      values := values + [Some(e[3..])];
      return Eq(f.column, |values|), values;
    }
    if Starts(e, "lte.") {
      values := values + [Some(e[4..])];
      return Lte(f.column, |values|), values;
    }
    c, values := CompileIn(f.column, Entries(e), before);
  }

  /** in.(...): one placeholder per entry, FALSE when there is none. */
  method CompileIn(column: string, entries: seq<string>, before: seq<Value>) returns (c: Clause, values: seq<Value>)
    ensures c == ClauseOf(OneOf(column, entries), |before|) && values == before + Wrapped(entries)
  {
    values := before;
    if entries == [] { return Never, before; }
    var ats: seq<nat> := [];
    for i := 0 to |entries|
      invariant values == before + Wrapped(entries[..i])
      invariant ats == Run(|before|, i)
    {
      assert entries[..i + 1][..i] == entries[..i];
      values := values + [Some(entries[i])];
      ats := ats + [|values|];
    }
    assert entries[..|entries|] == entries;
    c := In(column, ats);
  }

  /**
   * whereClause: the clauses and parameters of the filters in order, or the first
   * entry that cannot be compiled.
   */
  method WhereClause(filters: seq<Filter>, before: seq<Value>) returns (r: Result<seq<Clause>, Error>,
    values: seq<Value>)
    ensures r.Ok? <==> FirstError(filters).None?
    ensures r.Err? ==> Some(r.error) == FirstError(filters)
    ensures r.Ok? ==>
      Compilable(filters) && r.value == Clauses(Tests(filters), |before|) && values == before + Params(Tests(filters))
  {
    CompilableOrNot(filters);
    var clauses: seq<Clause> := [];
    values := before;
    for i := 0 to |filters|
      invariant FirstError(filters) == FirstError(filters[i..])
      invariant Compilable(filters) ==>
        Compilable(filters[i..]) && Remain(filters, before, filters[i..], clauses, values)
    {
      var f := filters[i];
      assert filters[i..][0] == f && filters[i..][1..] == filters[i + 1..];
      if Filtering(f) {
        if FilterError(f).Some? { return Err(FilterError(f).value), values; }
        var c, more := CompileFilter(f, values);
        if Compilable(filters) { RemainStep(filters, before, filters[i..], clauses, values); }
        clauses, values := clauses + [c], more;
      }
    }
    assert filters[|filters|..] == [];
    assert clauses + [] == clauses && values + [] == values;
    r := Ok(clauses);
  }

  /** What is built plus what the rest will add is the whole. */
  ghost predicate Remain(filters: seq<Filter>, before: seq<Value>, rest: seq<Filter>, clauses: seq<Clause>,
    values: seq<Value>)
    requires Compilable(filters) && Compilable(rest)
  {
    && clauses + Clauses(Tests(rest), |values|) == Clauses(Tests(filters), |before|)
    && values + Params(Tests(rest)) == before + Params(Tests(filters))
  }

  lemma RemainStep(filters: seq<Filter>, before: seq<Value>, rest: seq<Filter>, clauses: seq<Clause>,
    values: seq<Value>)
    requires Compilable(filters) && Compilable(rest) && Remain(filters, before, rest, clauses, values)
    requires rest != [] && Filtering(rest[0])
    ensures Compilable(rest[1..])
    ensures Remain(filters, before, rest[1..], clauses + [ClauseOf(TestOf(rest[0]), |values|)],
      values + ParamsOf(TestOf(rest[0])))
  {
    var t, tail := TestOf(rest[0]), Tests(rest[1..]);
    assert ([t] + tail)[1..] == tail;
    Reassociate(clauses, [ClauseOf(t, |values|)], Clauses(tail, |values| + |ParamsOf(t)|));
    Reassociate(values, ParamsOf(t), Params(tail));
  }

  lemma Reassociate<T>(a: seq<T>, b: seq<T>, c: seq<T>)
    ensures a + (b + c) == (a + b) + c
  {
  }

  lemma {:induction false} CompilableOrNot(filters: seq<Filter>)
    ensures FirstError(filters).None? <==> Compilable(filters)
    decreases |filters|
  {
    if filters != [] {
      CompilableOrNot(filters[1..]);
      if FilterError(filters[0]).None? && Compilable(filters[1..]) {
        forall i | 0 <= i < |filters| ensures FilterError(filters[i]).None? {
          if i > 0 { assert filters[i] == filters[1..][i - 1];
          }
        }
      }
    }
  }

  // --------------------------------------------- what the clauses mean

  predicate Holds(cmp: Compare, t: Test, row: Row) {
    var v := Stored(row, t.column);
    match t
    case HasNull(_) => v.None?
    case HasValue(_) => v.Some?
    case Equals(column, text) => v.Some? && cmp.eq(column, v.value, text)
    case AtMost(column, text) => v.Some? && cmp.le(column, v.value, text)
    case OneOf(column, entries) => v.Some? && exists x :: x in entries && cmp.eq(column, v.value, x)
  }

  predicate AllHold(cmp: Compare, tests: seq<Test>, row: Row) {
    tests == [] || (Holds(cmp, tests[0], row) && AllHold(cmp, tests[1..], row))
  }

  predicate AnyFilter(filters: seq<Filter>) { exists i :: 0 <= i < |filters| && Filtering(filters[i]) }

  /** Reading a filter keeps its meaning. */
  lemma TestMeans(cmp: Compare, f: Filter, row: Row)
    requires Filtering(f) && FilterError(f).None?
    ensures Holds(cmp, TestOf(f), row) <==> Matches(cmp, f, row)
  {
  }

  lemma {:induction false} TestsMean(cmp: Compare, filters: seq<Filter>, row: Row)
    requires Compilable(filters)
    ensures AllHold(cmp, Tests(filters), row) <==> MatchesAll(cmp, filters, row)
    decreases |filters|
  {
    if filters != [] {
      TestsMean(cmp, filters[1..], row);
      MatchesFirst(cmp, filters, row);
      if Filtering(filters[0]) {
        TestMeans(cmp, filters[0], row);
        assert ([TestOf(filters[0])] + Tests(filters[1..]))[1..] == Tests(filters[1..]);
      }
    }
  }

  lemma MatchesFirst(cmp: Compare, filters: seq<Filter>, row: Row)
    requires filters != []
    ensures MatchesAll(cmp, filters, row) <==> Matches(cmp, filters[0], row) && MatchesAll(cmp, filters[1..], row)
  {
    if Matches(cmp, filters[0], row) && MatchesAll(cmp, filters[1..], row) {
      forall i | 0 <= i < |filters| ensures Matches(cmp, filters[i], row) {
        if i > 0 { assert filters[i] == filters[1..][i - 1];
        }
      }
    }
  }

  /** Parameters stand where the clause's placeholders point. */
  predicate Placed(values: seq<Value>, base: nat, params: seq<Value>) {
    forall k: nat :: k < |params| ==> Param(values, base + k + 1) == params[k] && base + k < |values|
  }

  lemma PlacedAt(values: seq<Value>, base: nat, params: seq<Value>, k: nat)
    requires Placed(values, base, params) && k < |params|
    ensures Param(values, base + k + 1) == params[k]
  {
  }

  /** A compiled clause is true of exactly the rows its test holds of. */
  lemma ClauseMeans(cmp: Compare, t: Test, base: nat, values: seq<Value>, row: Row)
    requires Placed(values, base, ParamsOf(t))
    ensures Eval(cmp, ClauseOf(t, base), values, row) == True <==> Holds(cmp, t, row)
  {
    match t
    case HasNull(_) =>
    case HasValue(_) =>
    case Equals(_, _) => PlacedAt(values, base, ParamsOf(t), 0);
    case AtMost(_, _) => PlacedAt(values, base, ParamsOf(t), 0);
    case OneOf(column, entries) => InMeans(cmp, column, entries, base, values, row);
  }

  lemma InMeans(cmp: Compare, column: string, entries: seq<string>, base: nat, values: seq<Value>, row: Row)
    requires Placed(values, base, Wrapped(entries))
    ensures Eval(cmp, ClauseOf(OneOf(column, entries), base), values, row) == True
      <==> Holds(cmp, OneOf(column, entries), row)
  {
    var stored := Stored(row, column);
    if stored.Some? && entries != [] {
      var ats := Run(base, |entries|);
      if x :| x in entries && cmp.eq(column, stored.value, x) {
        var k :| 0 <= k < |entries| && entries[k] == x;
        EntryIsPlaced(entries, base, values, k);
        assert EqualTo(cmp, column, stored.value, Param(values, ats[k]));
      }
      if k :| 0 <= k < |ats| && EqualTo(cmp, column, stored.value, Param(values, ats[k])) {
        EntryIsPlaced(entries, base, values, k);
        assert entries[k] in entries;
      }
    }
  }

  lemma EntryIsPlaced(entries: seq<string>, base: nat, values: seq<Value>, k: nat)
    requires Placed(values, base, Wrapped(entries)) && k < |entries|
    ensures Param(values, Run(base, |entries|)[k]) == Some(entries[k])
  {
    WrappedAt(entries, k);
    RunAt(base, |entries|, k);
    PlacedThere(values, base, Wrapped(entries), k, Run(base, |entries|)[k]);
  }

  lemma PlacedThere(values: seq<Value>, base: nat, params: seq<Value>, k: nat, at: nat)
    requires Placed(values, base, params) && k < |params| && at == base + k + 1
    ensures Param(values, at) == params[k]
  {
    PlacedAt(values, base, params, k);
  }

  /** Placeholders run on from base without gaps, one for each parameter. */
  lemma {:induction false} ClausesAreNumbered(tests: seq<Test>, base: nat)
    ensures AllSlots(Clauses(tests, base)) == Run(base, |Params(tests)|)
    decreases |tests|
  {
    if tests != [] {
      var c, n := ClauseOf(tests[0], base), |ParamsOf(tests[0])|;
      ClausesAreNumbered(tests[1..], base + n);
      SlotsRun(tests[0], base);
      RunsJoin(base, n, |Params(tests[1..])|);
      assert ([c] + Clauses(tests[1..], base + n))[1..] == Clauses(tests[1..], base + n);
    }
  }

  lemma SlotsRun(t: Test, base: nat)
    ensures Slots(ClauseOf(t, base)) == Run(base, |ParamsOf(t)|)
  {
    assert Run(base, 0) == [] && Run(base, 1) == [base + 1];
  }

  lemma FirstMeans(cmp: Compare, t: Test, base: nat, rest: seq<Clause>, values: seq<Value>, row: Row)
    requires Placed(values, base, ParamsOf(t))
    ensures Selects(cmp, [ClauseOf(t, base)] + rest, values, row)
      <==> Holds(cmp, t, row) && Selects(cmp, rest, values, row)
  {
    ClauseMeans(cmp, t, base, values, row);
    assert ([ClauseOf(t, base)] + rest)[1..] == rest;
  }

  lemma TailIsInPlace<T>(f: T -> seq<Value>, s: seq<T>, base: nat, values: seq<Value>)
    requires s != [] && Placed(values, base, Concat(f, s))
    ensures Placed(values, base, f(s[0])) && Placed(values, base + |f(s[0])|, Concat(f, s[1..]))
  {
    PlacedParts(values, base, Concat(f, s), f(s[0]), Concat(f, s[1..]));
  }

  /** The conjunction is true of exactly the rows all the tests hold of. */
  lemma {:induction false} ClausesMean(cmp: Compare, tests: seq<Test>, base: nat, values: seq<Value>, row: Row)
    requires Placed(values, base, Params(tests))
    ensures Selects(cmp, Clauses(tests, base), values, row) <==> AllHold(cmp, tests, row)
    decreases |tests|
  {
    if tests != [] {
      var tail, after := tests[1..], base + |ParamsOf(tests[0])|;
      TailIsInPlace(ParamsOf, tests, base, values);
      ClausesMean(cmp, tail, after, values, row);
      FirstMeans(cmp, tests[0], base, Clauses(tail, after), values, row);
    }
  }

  /** Compiling a filter map preserves its meaning. */
  lemma FiltersMean(cmp: Compare, filters: seq<Filter>, base: nat, values: seq<Value>, row: Row)
    requires Compilable(filters) && Placed(values, base, Params(Tests(filters)))
    ensures Selects(cmp, Clauses(Tests(filters), base), values, row) <==> MatchesAll(cmp, filters, row)
  {
    ClausesMean(cmp, Tests(filters), base, values, row);
    TestsMean(cmp, filters, row);
  }

  lemma PlacedParts(values: seq<Value>, base: nat, all: seq<Value>, a: seq<Value>, b: seq<Value>)
    requires Placed(values, base, all) && all == a + b
    ensures Placed(values, base, a) && Placed(values, base + |a|, b)
  {
    forall k: nat | k < |a| ensures Param(values, base + k + 1) == a[k] && base + k < |values| {
      assert all[k] == a[k];
    }
    forall k: nat | k < |b| ensures Param(values, base + |a| + k + 1) == b[k] && base + |a| + k < |values| {
      assert all[|a| + k] == b[k];
    }
  }

  // ----------------------------------------------------------- statements

  datatype Order = Order(column: string, descending: bool)

  datatype Statement =
    | SelectRows(clauses: seq<Clause>, order: Option<Order>, limit: Option<nat>, values: seq<Value>)
    | UpdateRows(setters: seq<(string, nat)>, clauses: seq<Clause>, values: seq<Value>)
    | DeleteRows(clauses: seq<Clause>, values: seq<Value>)
    | InsertRows(columns: seq<string>, cells: seq<seq<nat>>, conflict: Option<Conflict>, values: seq<Value>)

  datatype Conflict = Conflict(targets: seq<string>, updates: seq<string>)

  function Lower(s: string): string {
    seq(|s|, i requires 0 <= i < |s| => if 'A' <= s[i] <= 'Z' then (s[i] as int + 32) as char else s[i])
  }

  /** orderClause: "column", "column.asc" or "column.desc"; an empty order is none. */
  function OrderClause(order: string): Result<Option<Order>, Error> {
    if order == "" then Ok(None)
    else
      var parts := Split(order, '.');
      var direction := Lower(if |parts| > 1 then parts[1] else "asc");
      if parts[0] == "" || (direction != "asc" && direction != "desc") then Err(BadDirection)
      else if !Identifier(parts[0]) then Err(BadIdentifier(parts[0]))
      else Ok(Some(Order(parts[0], direction == "desc")))
  }

  lemma SplitTwo(a: string, b: string, c: char)
    requires Free(a, c) && Free(b, c)
    ensures Split(a, c) == [a] && Split(a + [c] + b, c) == [a, b]
  {
    SplitJoin([a], c);
    SplitJoin([a, b], c);
    assert [a, b][1..] == [b];
  }

  lemma IdentifiersHoldNoDots(s: string)
    requires Identifier(s)
    ensures Free(s, '.') && s != ""
  {
  }

  predicate Word(s: string, lower: string, upper: string)
    requires |lower| == |upper|
  {
    |s| == |lower| && forall i :: 0 <= i < |s| ==> s[i] == lower[i] || s[i] == upper[i]
  }

  /** What an order sorts by: a bare column ascends, as does .asc in any case; .desc in any case descends. */
  lemma OrderMeans(column: string, direction: string)
    requires Identifier(column) && Free(direction, '.')
    ensures OrderClause("") == Ok(None)
    ensures OrderClause(column) == Ok(Some(Order(column, false)))
    ensures OrderClause(column + "." + direction)
      == if Word(direction, "asc", "ASC") then Ok(Some(Order(column, false)))
         else if Word(direction, "desc", "DESC") then Ok(Some(Order(column, true))) else Err(BadDirection)
  {
    IdentifiersHoldNoDots(column);
    SplitTwo(column, direction, '.');
    LowerIs(direction, "asc", "ASC");
    LowerIs(direction, "desc", "DESC");
    LowerIs("asc", "asc", "ASC");
    assert Lower("asc") == "asc" && "asc" != "desc";
  }

  lemma LowerIs(s: string, lower: string, upper: string)
    requires |lower| == |upper|
    requires forall i :: 0 <= i < |lower| ==> 'a' <= lower[i] <= 'z' && upper[i] as int + 32 == lower[i] as int
    ensures Lower(s) == lower <==> Word(s, lower, upper)
  {
    if Lower(s) == lower {
      forall i | 0 <= i < |s| ensures s[i] == lower[i] || s[i] == upper[i] {
        assert Lower(s)[i] == lower[i];
      }
    }
  }

  /** Only identifiers are sorted by, and nothing after a second dot matters. */
  lemma OrderIsRefused(order: string)
    requires order != ""
    ensures OrderClause(order).Ok? <==>
      && Identifier(Split(order, '.')[0])
      && (|Split(order, '.')| > 1 ==>
            Word(Split(order, '.')[1], "asc", "ASC") || Word(Split(order, '.')[1], "desc", "DESC"))
  {
    var parts := Split(order, '.');
    LowerIs("asc", "asc", "ASC");
    assert Lower("asc") == "asc";
    if |parts| > 1 {
      LowerIs(parts[1], "asc", "ASC");
      LowerIs(parts[1], "desc", "DESC");
    }
  }

  predicate GoodLimit(limit: Option<int>) { limit.Some? ==> 0 <= limit.value <= 10_000 }

  /** Every parameter is named once, in step with the placeholders. */
  predicate Numbered(st: Statement) {
    match st
    case SelectRows(clauses, _, limit, values) =>
      AllSlots(clauses) + (if limit.Some? then [limit.value] else []) == Run(0, |values|)
    case UpdateRows(setters, clauses, values) =>
      Seconds(setters) + AllSlots(clauses) == Run(0, |values|)
    case DeleteRows(clauses, values) => AllSlots(clauses) == Run(0, |values|)
    case InsertRows(_, cells, _, values) => Flat(cells) == Run(0, |values|)
  }

  function Seconds(pairs: seq<(string, nat)>): seq<nat> {
    if pairs == [] then [] else [pairs[0].1] + Seconds(pairs[1..])
  }

  function Flat(cells: seq<seq<nat>>): seq<nat> {
    if cells == [] then [] else Flat(cells[..|cells| - 1]) + cells[|cells| - 1]
  }

  /** The statement select builds. */
  function Selection(filters: seq<Filter>, order: Option<Order>, limit: Option<nat>): Statement
    requires Compilable(filters)
  {
    var tests := Tests(filters);
    SelectRows(Clauses(tests, 0), order, if limit.Some? then Some(|Params(tests)| + 1) else None,
               Params(tests) + if limit.Some? then [Some(Decimal(limit.value))] else [])
  }

  /** select */
  method Select(filters: seq<Filter>, order: string, limit: Option<int>) returns (r: Result<Statement, Error>)
    ensures r.Ok? <==>
      FirstError(filters).None? && OrderClause(order).Ok? && (limit.Some? ==> 0 <= limit.value <= 10_000)
    ensures r.Ok? ==> Compilable(filters) && r.value == Selection(filters, OrderClause(order).value, if limit.Some?
      then Some(limit.value as nat) else None)
  {
    var clauses, values := WhereClause(filters, []);
    if clauses.Err? { return Err(clauses.error); }
    var sorted := OrderClause(order);
    if sorted.Err? { return Err(sorted.error); }
    if !GoodLimit(limit) { return Err(BadLimit); }
    if limit.None? { return Ok(SelectRows(clauses.value, sorted.value, None, values)); }
    values := values + [Some(Decimal(limit.value))];
    r := Ok(SelectRows(clauses.value, sorted.value, Some(|values|), values));
  }

  /** A select names every parameter once, in order, and returns exactly the rows its filters describe. */
  lemma SelectionMeans(cmp: Compare, filters: seq<Filter>, order: Option<Order>, limit: Option<nat>, row: Row)
    requires Compilable(filters)
    ensures Numbered(Selection(filters, order, limit))
    ensures var st := Selection(filters, order, limit);
      && (Selects(cmp, st.clauses, st.values, row) <==> MatchesAll(cmp, filters, row))
      && (limit.Some? ==> st.limit.Some? && Param(st.values, st.limit.value) == Some(Decimal(limit.value)))
  {
    var params, more := Params(Tests(filters)), if limit.Some? then [Some(Decimal(limit.value))] else [];
    ClausesAreNumbered(Tests(filters), 0);
    PrefixIsPlaced(params, more);
    FiltersMean(cmp, filters, 0, params + more, row);
    assert Run(0, |params|) + [] == Run(0, |params|);
  }

  lemma PrefixIsPlaced(params: seq<Value>, more: seq<Value>)
    ensures Placed(params + more, 0, params)
  {
  }

  predicate AllIdentifiers(names: seq<string>) { forall i :: 0 <= i < |names| ==> Identifier(names[i]) }

  function Columns(body: seq<(string, Value)>): seq<string> {
    seq(|body|, i requires 0 <= i < |body| => body[i].0)
  }

  /** The row with the body's columns overwritten. */
  function Overwritten(row: Row, body: seq<(string, Value)>): Row
    decreases |body|
  {
    if body == [] then row else Overwritten(row[body[0].0 := body[0].1], body[1..])
  }

  /** Of a body that names each column once, every value lands in its column, and no other column changes. */
  lemma {:induction false} OverwrittenColumns(row: Row, body: seq<(string, Value)>, x: string)
    requires NoRepeats(Columns(body))
    ensures forall k :: 0 <= k < |body| && body[k].0 == x ==>
      x in Overwritten(row, body) && Overwritten(row, body)[x] == body[k].1
    ensures x !in Columns(body) ==>
      (x in Overwritten(row, body) <==> x in row) && (x in row ==> Overwritten(row, body)[x] == row[x])
    decreases |body|
  {
    if body != [] {
      var next := row[body[0].0 := body[0].1];
      ColumnsRest(body);
      assert Columns(body)[0] == body[0].0;
      OverwrittenColumns(next, body[1..], x);
      forall k | 0 <= k < |body| && body[k].0 == x
        ensures x in Overwritten(row, body) && Overwritten(row, body)[x] == body[k].1
      {
        if k == 0 { NotAmong(body, x); } else { assert body[1..][k - 1] == body[k]; }
      }
    }
  }

  lemma ColumnsRest(body: seq<(string, Value)>)
    requires body != [] && NoRepeats(Columns(body))
    ensures NoRepeats(Columns(body[1..])) && forall x :: x !in Columns(body) ==> x !in Columns(body[1..])
  {
    var all, rest := Columns(body), Columns(body[1..]);
    forall i | 0 <= i < |rest| ensures rest[i] == all[i + 1] { }
  }

  lemma NotAmong(body: seq<(string, Value)>, x: string)
    requires body != [] && NoRepeats(Columns(body)) && body[0].0 == x
    ensures x !in Columns(body[1..])
  {
    var all, rest := Columns(body), Columns(body[1..]);
    forall i | 0 <= i < |rest| ensures rest[i] == all[i + 1] != all[0] == x { }
  }

  /** Executing an update on one row. */
  function Updated(cmp: Compare, st: Statement, row: Row): Row
    requires st.UpdateRows?
  {
    if Selects(cmp, st.clauses, st.values, row) then Assigned(row, st.setters, st.values) else row
  }

  function Assigned(row: Row, setters: seq<(string, nat)>, values: seq<Value>): Row
    decreases |setters|
  {
    if setters == [] then row else Assigned(row[setters[0].0 := Param(values, setters[0].1)], setters[1..], values)
  }

  /** Each column with the parameter after those before it. */
  function Setters(body: seq<(string, Value)>, base: nat): seq<(string, nat)> {
    if body == [] then [] else [(body[0].0, base + 1)] + Setters(body[1..], base + 1)
  }

  function Given(body: seq<(string, Value)>): (r: seq<Value>)
    ensures |r| == |body|
  {
    if body == [] then [] else [body[0].1] + Given(body[1..])
  }

  /** The statement update builds. */
  function UpdateOf(filters: seq<Filter>, body: seq<(string, Value)>): Statement
    requires Compilable(filters)
  {
    UpdateRows(Setters(body, 0), Clauses(Tests(filters), |body|), Given(body) + Params(Tests(filters)))
  }

  /** update: no statement for an empty body, and never one without a WHERE. */
  method Update(filters: seq<Filter>, body: seq<(string, Value)>) returns (r: Result<Option<Statement>, Error>)
    ensures body == [] ==> r == Ok(None)
    ensures body != [] ==> (r.Ok? <==> AllIdentifiers(Columns(body)) && FirstError(filters).None? && AnyFilter(filters))
    ensures r.Ok? && body != [] ==> Compilable(filters) && r.value == Some(UpdateOf(filters, body))
  {
    if body == [] { return Ok(None); }
    var values: seq<Value> := [];
    var setters: seq<(string, nat)> := [];
    for i := 0 to |body|
      invariant |values| == i && values + Given(body[i..]) == Given(body)
      invariant setters + Setters(body[i..], i) == Setters(body, 0)
      invariant forall k :: 0 <= k < i ==> Identifier(Columns(body)[k])
    {
      if !Identifier(body[i].0) {
        assert Columns(body)[i] == body[i].0;
        return Err(BadIdentifier(body[i].0));
      }
      assert body[i..][1..] == body[i + 1..];
      Reassociate(values, [body[i].1], Given(body[i + 1..]));
      Reassociate(setters, [(body[i].0, i + 1)], Setters(body[i + 1..], i + 1));
      values := values + [body[i].1];
      setters := setters + [(body[i].0, |values|)];
    }
    assert body[|body|..] == [] && values + [] == values && setters + [] == setters;
    var clauses;
    clauses, values := WhereClause(filters, values);
    if clauses.Err? { return Err(clauses.error); }
    NoClausesNoFilters(filters, |body|);
    if clauses.value == [] { return Err(Unfiltered); }
    r := Ok(Some(UpdateRows(setters, clauses.value, values)));
  }

  /**
   * An update names every parameter once, is never unfiltered, and gives exactly the rows its filters
   * describe the body's values.
   */
  lemma UpdateMeans(cmp: Compare, filters: seq<Filter>, body: seq<(string, Value)>, row: Row)
    requires Compilable(filters) && AnyFilter(filters)
    ensures Numbered(UpdateOf(filters, body)) && UpdateOf(filters, body).clauses != []
    ensures Updated(cmp, UpdateOf(filters, body), row) == if MatchesAll(cmp, filters, row) then Overwritten(row, body)
      else row
  {
    UpdateIsNumbered(filters, body);
    NoClausesNoFilters(filters, |body|);
    TailIsPlaced(Given(body), Params(Tests(filters)));
    FiltersMean(cmp, filters, |body|, Given(body) + Params(Tests(filters)), row);
    PrefixIsPlaced(Given(body), Params(Tests(filters)));
    AssignedIsOverwritten(row, body, 0, Given(body) + Params(Tests(filters)));
  }

  lemma UpdateIsNumbered(filters: seq<Filter>, body: seq<(string, Value)>)
    requires Compilable(filters)
    ensures Numbered(UpdateOf(filters, body))
  {
    ClausesAreNumbered(Tests(filters), |body|);
    SettersAreNumbered(body, 0);
    RunsJoin(0, |body|, |Params(Tests(filters))|);
  }

  lemma TailIsPlaced(given: seq<Value>, params: seq<Value>)
    ensures Placed(given + params, |given|, params)
  {
  }

  lemma {:induction false} SettersAreNumbered(body: seq<(string, Value)>, base: nat)
    ensures Seconds(Setters(body, base)) == Run(base, |body|)
    decreases |body|
  {
    if body != [] {
      SettersAreNumbered(body[1..], base + 1);
      RunsJoin(base, 1, |body| - 1);
      assert Run(base, 0) == [] && Run(base, 1) == [base + 1];
      assert ([(body[0].0, base + 1)] + Setters(body[1..], base + 1))[1..] == Setters(body[1..], base + 1);
    }
  }

  lemma {:induction false} AssignedIsOverwritten(row: Row, body: seq<(string, Value)>, base: nat, values: seq<Value>)
    requires Placed(values, base, Given(body))
    ensures Assigned(row, Setters(body, base), values) == Overwritten(row, body)
    decreases |body|
  {
    if body != [] {
      PlacedParts(values, base, Given(body), [body[0].1], Given(body[1..]));
      PlacedAt(values, base, [body[0].1], 0);
      AssignedIsOverwritten(row[body[0].0 := body[0].1], body[1..], base + 1, values);
      assert ([(body[0].0, base + 1)] + Setters(body[1..], base + 1))[1..] == Setters(body[1..], base + 1);
    }
  }

  /** remove: never without a WHERE. */
  method Remove(filters: seq<Filter>) returns (r: Result<Statement, Error>)
    ensures r.Ok? <==> FirstError(filters).None? && AnyFilter(filters)
    ensures r.Ok? ==> Compilable(filters) && r.value == DeleteRows(Clauses(Tests(filters), 0), Params(Tests(filters)))
  {
    var clauses, values := WhereClause(filters, []);
    if clauses.Err? { return Err(clauses.error); }
    NoClausesNoFilters(filters, 0);
    if clauses.value == [] { return Err(Unfiltered); }
    r := Ok(DeleteRows(clauses.value, values));
  }

  /** A delete names every parameter once, is never unfiltered, and removes exactly the rows its filters describe. */
  lemma RemoveMeans(cmp: Compare, filters: seq<Filter>, row: Row)
    requires Compilable(filters) && AnyFilter(filters)
    ensures var st := DeleteRows(Clauses(Tests(filters), 0), Params(Tests(filters)));
      && Numbered(st) && st.clauses != []
      && (Selects(cmp, st.clauses, st.values, row) <==> MatchesAll(cmp, filters, row))
  {
    var params := Params(Tests(filters));
    ClausesAreNumbered(Tests(filters), 0);
    NoClausesNoFilters(filters, 0);
    PrefixIsPlaced(params, []);
    assert params + [] == params;
    FiltersMean(cmp, filters, 0, params, row);
  }

  lemma NoClausesNoFilters(filters: seq<Filter>, base: nat)
    requires Compilable(filters)
    ensures Clauses(Tests(filters), base) == [] <==> !AnyFilter(filters)
  {
    NoTestsNoFilters(filters);
  }

  lemma {:induction false} NoTestsNoFilters(filters: seq<Filter>)
    requires Compilable(filters)
    ensures Tests(filters) == [] <==> !AnyFilter(filters)
    decreases |filters|
  {
    if filters != [] {
      NoTestsNoFilters(filters[1..]);
      if i :| 0 <= i < |filters| && Filtering(filters[i]) && i > 0 { assert Filtering(filters[1..][i - 1]); }
    }
  }

  // --------------------------------------------------------------- insert

  function Cell(row: Row, column: string): Value { if column in row then row[column] else None }

  predicate HasAll(row: Row, columns: seq<string>) { forall i :: 0 <= i < |columns| ==> columns[i] in row }

  /** How many cells come before row r. */
  function RowStart(r: nat, width: nat): nat { if r == 0 then 0 else RowStart(r - 1, width) + width }

  lemma {:induction false} RowStartIsProduct(r: nat, width: nat)
    ensures RowStart(r, width) == r * width
    decreases r
  {
    if r > 0 { RowStartIsProduct(r - 1, width); }
  }

  /**
   * Row by row, cell c is the parameter after those before it, RowStart + c + 1, and carries the row's
   * value of column c.
   */
  ghost predicate Tabular(rows: seq<Row>, columns: seq<string>, cells: seq<seq<nat>>, values: seq<Value>) {
    && |cells| == |rows| && |values| == RowStart(|rows|, |columns|)
    && forall r: nat :: r < |rows| ==> RowCells(rows[r], columns, cells[r], values, RowStart(r, |columns|))
  }

  ghost predicate RowCells(row: Row, columns: seq<string>, cells: seq<nat>, values: seq<Value>, start: nat) {
    && |cells| == |columns| && start + |columns| <= |values|
    && forall c :: 0 <= c < |columns| ==> cells[c] == start + c + 1 && values[start + c] == Cell(row, columns[c])
  }

  /** One row's placeholders, appending its values. */
  method InsertRow(row: Row, columns: seq<string>, before: seq<Value>) returns (cells: seq<nat>, values: seq<Value>)
    ensures before <= values && |values| == |before| + |columns| && RowCells(row, columns, cells, values, |before|)
    ensures cells == Run(|before|, |columns|)
  {
    cells, values := [], before;
    for c := 0 to |columns|
      invariant cells == Run(|before|, c) && |values| == |before| + c && before <= values
      invariant forall k :: 0 <= k < c ==> cells[k] == |before| + k + 1 && values[|before| + k] == Cell(row, columns[k])
    {
      values := values + [Cell(row, columns[c])];
      cells := cells + [|values|];
    }
  }

  /** ON CONFLICT: targets are not overwritten, every other inserted column is. */
  function Conflicts(onConflict: string, columns: seq<string>): Conflict {
    var targets := NonEmpty(Split(onConflict, ','));
    Conflict(targets, Others(columns, targets))
  }

  function Others(columns: seq<string>, targets: seq<string>): seq<string> {
    if columns == [] then []
    else
      var rest := Others(columns[..|columns| - 1], targets);
      if columns[|columns| - 1] in targets then rest else rest + [columns[|columns| - 1]]
  }

  /** The texts between the commas of onConflict are the target; every other inserted column is taken over. */
  lemma ConflictsAre(onConflict: string, columns: seq<string>, x: string)
    ensures x in Conflicts(onConflict, columns).targets <==> x in Split(onConflict, ',') && x != ""
    ensures x in Conflicts(onConflict, columns).updates <==>
      x in columns && !(x in Split(onConflict, ',') && x != "")
  {
    NonEmptyIs(Split(onConflict, ','), x);
    OthersAre(columns, Conflicts(onConflict, columns).targets, x);
  }

  lemma {:induction false} OthersAre(columns: seq<string>, targets: seq<string>, x: string)
    ensures x in Others(columns, targets) <==> x in columns && x !in targets
    decreases |columns|
  {
    if columns != [] {
      assert columns == columns[..|columns| - 1] + [columns[|columns| - 1]];
      OthersAre(columns[..|columns| - 1], targets, x);
    }
  }

  /** insert, with columns the keys of the first row; every row must have them. */
  method Insert(rows: seq<Row>, columns: seq<string>,
    onConflict: Option<string>) returns (r: Result<Option<Statement>, Error>)
    requires rows != [] ==> (forall x :: x in columns <==> x in rows[0]) && NoRepeats(columns)
    ensures rows == [] ==> r == Ok(None)
    ensures rows != [] ==> (r.Ok? <==>
      && columns != [] && (forall i :: 0 <= i < |rows| ==> HasAll(rows[i], columns)) && AllIdentifiers(columns)
      && (onConflict.Some? ==>
        Conflicts(onConflict.value,
          columns).targets != [] && AllIdentifiers(Conflicts(onConflict.value, columns).targets)))
    ensures r.Ok? && rows != [] ==> r.value.Some? && r.value.value.InsertRows? && r.value.value.columns == columns
    ensures r.Ok? && rows != [] ==>
      Tabular(rows, columns, r.value.value.cells, r.value.value.values) && Numbered(r.value.value)
    ensures r.Ok? && rows != [] ==>
      r.value.value.conflict == if onConflict.Some? then Some(Conflicts(onConflict.value, columns)) else None
  {
    if rows == [] { return Ok(None); }
    if columns == [] { return Err(BadShape); }
    for i := 0 to |rows|
      invariant forall k :: 0 <= k < i ==> HasAll(rows[k], columns)
    {
      if !HasAll(rows[i], columns) { return Err(BadShape); }
    }
    var values: seq<Value> := [];
    var cells: seq<seq<nat>> := [];
    for i := 0 to |rows|
      invariant Tabular(rows[..i], columns, cells, values)
      invariant Flat(cells) == Run(0, |values|)
    {
      ghost var had := values;
      var more;
      more, values := InsertRow(rows[i], columns, values);
      TabularGrows(rows[..i], rows[i], columns, cells, had, more, values);
      assert rows[..i + 1] == rows[..i] + [rows[i]];
      RunsJoin(0, |had|, |columns|);
      assert (cells + [more])[..i] == cells;
      cells := cells + [more];
    }
    assert rows[..|rows|] == rows;
    var conflict := None;
    if onConflict.Some? {
      var c := Conflicts(onConflict.value, columns);
      if c.targets == [] { return Err(NoConflictTarget); }
      var bad := FirstBad(c.targets);
      if bad.Some? { return Err(BadIdentifier(bad.value)); }
      conflict := Some(c);
    }
    var bad := FirstBad(columns);
    if bad.Some? { return Err(BadIdentifier(bad.value)); }
    r := Ok(Some(InsertRows(columns, cells, conflict, values)));
  }

  lemma TabularGrows(rows: seq<Row>, row: Row, columns: seq<string>, cells: seq<seq<nat>>, had: seq<Value>,
    more: seq<nat>, values: seq<Value>)
    requires Tabular(rows, columns, cells, had) && had <= values && |values| == |had| + |columns|
    requires RowCells(row, columns, more, values, |had|)
    ensures Tabular(rows + [row], columns, cells + [more], values)
  {
    forall r: nat | r < |rows| ensures RowCells(rows[r], columns, cells[r], values, RowStart(r, |columns|)) {
      assert RowCells(rows[r], columns, cells[r], had, RowStart(r, |columns|));
    }
  }

  method FirstBad(names: seq<string>) returns (bad: Option<string>)
    ensures bad.None? <==> AllIdentifiers(names)
    ensures bad.Some? ==> bad.value in names && !Identifier(bad.value)
  {
    for i := 0 to |names|
      invariant forall k :: 0 <= k < i ==> Identifier(names[k])
    {
      if !Identifier(names[i]) { return Some(names[i]); }
    }
    return None;
  }

  // --------------------------------------------------------------- upsert

  /** NULLs never conflict. */
  predicate Agree(a: Row, b: Row, targets: seq<string>) {
    forall i :: 0 <= i < |targets| ==> Cell(a, targets[i]).Some? && Cell(a, targets[i]) == Cell(b, targets[i])
  }

  function Taken(row: Row, inserted: Row, updates: seq<string>): Row {
    if updates == [] then row
    else Taken(row, inserted, updates[..|updates| - 1])[updates[|updates| - 1] :=
      Cell(inserted, updates[|updates| - 1])]
  }

  /** Executing an upsert of one row. */
  function Upserted(table: seq<Row>, inserted: Row, c: Conflict): seq<Row> {
    if i :| 0 <= i < |table| && Agree(table[i], inserted, c.targets) && forall k :: 0 <= k < i ==>
      !Agree(table[k], inserted, c.targets)
    then table[i := Taken(table[i], inserted, c.updates)]
    else table + [inserted]
  }

  lemma {:induction false} TakenColumns(row: Row, inserted: Row, updates: seq<string>, x: string)
    ensures Cell(Taken(row, inserted, updates), x) == if x in updates then Cell(inserted, x) else Cell(row, x)
    decreases |updates|
  {
    if updates != [] {
      assert updates == updates[..|updates| - 1] + [updates[|updates| - 1]];
      TakenColumns(row, inserted, updates[..|updates| - 1], x);
    }
  }

  /** On conflict the row found ends up with the inserted value in every listed column and keeps every other one. */
  lemma UpsertKeepsUnlisted(table: seq<Row>, inserted: Row, columns: seq<string>, onConflict: string, i: nat, x: string)
    requires i < |table| && Agree(table[i], inserted, Conflicts(onConflict, columns).targets)
    requires forall k :: 0 <= k < i ==> !Agree(table[k], inserted, Conflicts(onConflict, columns).targets)
    requires forall t :: t in Conflicts(onConflict, columns).targets ==> t in columns
    ensures var after := Upserted(table, inserted, Conflicts(onConflict, columns));
      && |after| == |table|
      && Cell(after[i], x) == (if x in columns then Cell(inserted, x) else Cell(table[i], x))
      && forall k :: 0 <= k < |table| && k != i ==> after[k] == table[k]
  {
    var c := Conflicts(onConflict, columns);
    TakenColumns(table[i], inserted, c.updates, x);
    OthersAre(columns, c.targets, x);
    if x in c.targets {
      var k :| 0 <= k < |c.targets| && c.targets[k] == x;
    }
  }
}
