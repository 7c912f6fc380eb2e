/**
 * What the bundle modules assume of a YAML library and of lower-casing can be met.
 *
 * The library exhibited writes each value as a self-delimiting text without line breaks;
 * reading is its inverse. It only shows that the assumptions do not contradict each other.
 */
module YamlInstance {
  import opened Wrappers
  import opened Text
  import opened Lines
  import opened Frontmatter
  import B = Bundles
  import O = OkfBundles

  // -------------------------------------------------------------- rendering

  function Unary(n: nat): string { if n == 0 then "." else "1" + Unary(n - 1) }

  function Chars(s: string): string { if s == [] then "." else "1" + Unary(s[0] as nat) + Chars(s[1..]) }

  ghost function Listed(names: set<string>): seq<string> {
    if names == {} then [] else var x :| x in names; [x] + Listed(names - {x})
  }

  lemma {:induction false} ListedIsComplete(names: set<string>)
    ensures forall x :: x in Listed(names) <==> x in names
  {
    if names != {} {
      var x :| x in names && Listed(names) == [x] + Listed(names - {x});
      ListedIsComplete(names - {x});
    }
  }

  ghost function Render(v: Value): string
    decreases v, 1, 0
  {
    match v
    case Null => "n"
    case Bool(b) => if b then "t" else "f"
    case Num(m, places) => (if m < 0 then "-" + Unary(-m) else "+" + Unary(m)) + Unary(places)
    case Str(s) => "s" + Chars(s)
    case Arr(_) => "a" + Items(v, 0)
    case Obj(_) => "o" + Fields(v, Listed(v.fields.Keys))
  }

  ghost function Items(v: Value, i: nat): string
    requires v.Arr? && i <= |v.items|
    decreases v, 0, |v.items| - i
  {
    if i == |v.items| then "." else "1" + Render(v.items[i]) + Items(v, i + 1)
  }

  ghost function Fields(v: Value, names: seq<string>): string
    requires v.Obj?
    decreases v, 0, |names|
  {
    if names == [] then "."
    else
      "1" + Chars(names[0])
      + (if names[0] in v.fields then Render(v.fields[names[0]]) else "") + Fields(v, names[1..])
  }

  // ------------------------------------------------------------- injectivity

  lemma Same(a: string, b: string, x: string, y: string)
    requires a + x == b + y && |a| == |b|
    ensures a == b && x == y
  {
    assert a == (a + x)[..|a|] && x == (a + x)[|a|..];
    assert b == (b + y)[..|b|] && y == (b + y)[|b|..];
  }

  lemma Head(c: string, d: string, x: string, y: string)
    requires c + x == d + y && |c| == 1 && |d| == 1
    ensures c == d && x == y
  {
    Same(c, d, x, y);
  }

  lemma Regroup(a: string, b: string, c: string)
    ensures a + b + c == a + (b + c)
  {
  }

  lemma {:induction false} UnaryIsPrefixFree(m: nat, n: nat, x: string, y: string)
    requires Unary(m) + x == Unary(n) + y
    ensures m == n && x == y
  {
    if m > 0 { Regroup("1", Unary(m - 1), x); }
    if n > 0 { Regroup("1", Unary(n - 1), y); }
    Head(if m > 0 then "1" else ".", if n > 0 then "1" else ".",
         if m > 0 then Unary(m - 1) + x else x, if n > 0 then Unary(n - 1) + y else y);
    if m > 0 { UnaryIsPrefixFree(m - 1, n - 1, x, y); }
  }

  lemma {:induction false} CharsArePrefixFree(s: string, t: string, x: string, y: string)
    requires Chars(s) + x == Chars(t) + y
    ensures s == t && x == y
  {
    CharsSplit(s, x);
    CharsSplit(t, y);
    if s == [] || t == [] {
      Head(if s == [] then "." else "1", if t == [] then "." else "1",
           if s == [] then x else Unary(s[0] as nat) + (Chars(s[1..]) + x), if t == [] then y
             else Unary(t[0] as nat) + (Chars(t[1..]) + y));
    } else {
      Head("1", "1", Unary(s[0] as nat) + (Chars(s[1..]) + x), Unary(t[0] as nat) + (Chars(t[1..]) + y));
      UnaryIsPrefixFree(s[0] as nat, t[0] as nat, Chars(s[1..]) + x, Chars(t[1..]) + y);
      CharsArePrefixFree(s[1..], t[1..], x, y);
      assert s == [s[0]] + s[1..] && t == [t[0]] + t[1..];
    }
  }

  lemma CharsSplit(s: string, x: string)
    ensures Chars(s) + x == if s == [] then "." + x else "1" + (Unary(s[0] as nat) + (Chars(s[1..]) + x))
  {
    if s != [] {
      Regroup("1" + Unary(s[0] as nat), Chars(s[1..]), x);
      Regroup("1", Unary(s[0] as nat), Chars(s[1..]) + x);
    }
  }

  function Tag(v: Value): string {
    match v
    case Null => "n"
    case Bool(b) => if b then "t" else "f"
    case Num(m, _) => if m < 0 then "-" else "+"
    case Str(_) => "s"
    case Arr(_) => "a"
    case Obj(_) => "o"
  }

  ghost function Rest(v: Value): string {
    match v
    case Null => ""
    case Bool(_) => ""
    case Num(m, places) => Unary(if m < 0 then -m else m) + Unary(places)
    case Str(s) => Chars(s)
    case Arr(_) => Items(v, 0)
    case Obj(_) => Fields(v, Listed(v.fields.Keys))
  }

  lemma RenderSplit(v: Value, x: string)
    ensures Render(v) + x == Tag(v) + (Rest(v) + x)
  {
    assert Render(v) == Tag(v) + Rest(v);
    Regroup(Tag(v), Rest(v), x);
  }

  /** No rendering starts another: what follows can be told apart. */
  lemma {:induction false} RenderIsPrefixFree(v: Value, w: Value, x: string, y: string)
    requires Render(v) + x == Render(w) + y
    ensures v == w && x == y
    decreases v, 1, 0
  {
    RenderSplit(v, x);
    RenderSplit(w, y);
    Head(Tag(v), Tag(w), Rest(v) + x, Rest(w) + y);
    match v
    case Null => assert "" + x == x && "" + y == y;
    case Bool(_) => assert "" + x == x && "" + y == y;
    case Num(_, _) =>
      NumIsPrefixFree(v, w, x, y);
    case Str(s) => CharsArePrefixFree(s, w.s, x, y);
    case Arr(_) =>
      ItemsArePrefixFree(v, w, 0, x, y);
      assert v.items[0..] == v.items && w.items[0..] == w.items;
    case Obj(_) =>
      ListedIsComplete(v.fields.Keys);
      ListedIsComplete(w.fields.Keys);
      FieldsArePrefixFree(v, w, Listed(v.fields.Keys), Listed(w.fields.Keys), x, y);
      SameFields(v, w);
  }

  lemma NumIsPrefixFree(v: Value, w: Value, x: string, y: string)
    requires v.Num? && w.Num? && Tag(v) == Tag(w) && Rest(v) + x == Rest(w) + y
    ensures v == w && x == y
  {
    var m, n := if v.mantissa < 0 then -v.mantissa else v.mantissa, if w.mantissa < 0 then -w.mantissa else w.mantissa;
    Regroup(Unary(m), Unary(v.places), x);
    Regroup(Unary(n), Unary(w.places), y);
    UnaryIsPrefixFree(m, n, Unary(v.places) + x, Unary(w.places) + y);
    UnaryIsPrefixFree(v.places, w.places, x, y);
  }

  lemma ItemsSplit(v: Value, i: nat, x: string)
    requires v.Arr? && i <= |v.items|
    ensures Items(v, i) + x == if i == |v.items| then "." + x else "1" + (Render(v.items[i]) + (Items(v, i + 1) + x))
  {
    if i < |v.items| {
      Regroup("1" + Render(v.items[i]), Items(v, i + 1), x);
      Regroup("1", Render(v.items[i]), Items(v, i + 1) + x);
    }
  }

  lemma {:induction false} ItemsArePrefixFree(v: Value, w: Value, i: nat, x: string, y: string)
    requires v.Arr? && w.Arr? && i <= |v.items| && i <= |w.items| && Items(v, i) + x == Items(w, i) + y
    ensures v.items[i..] == w.items[i..] && x == y
    decreases v, 0, |v.items| - i
  {
    ItemsSplit(v, i, x);
    ItemsSplit(w, i, y);
    if i == |v.items| || i == |w.items| {
      Head(if i == |v.items| then "." else "1", if i == |w.items| then "." else "1",
           if i == |v.items| then x else Render(v.items[i]) + (Items(v, i + 1) + x),
           if i == |w.items| then y else Render(w.items[i]) + (Items(w, i + 1) + y));
    } else {
      Head("1", "1", Render(v.items[i]) + (Items(v, i + 1) + x), Render(w.items[i]) + (Items(w, i + 1) + y));
      RenderIsPrefixFree(v.items[i], w.items[i], Items(v, i + 1) + x, Items(w, i + 1) + y);
      ItemsArePrefixFree(v, w, i + 1, x, y);
      assert v.items[i..] == [v.items[i]] + v.items[i + 1..] && w.items[i..] == [w.items[i]] + w.items[i + 1..];
    }
  }

  predicate Known(v: Value, names: seq<string>)
    requires v.Obj?
  {
    forall i :: 0 <= i < |names| ==> names[i] in v.fields
  }

  lemma FieldsSplit(v: Value, names: seq<string>, x: string)
    requires v.Obj? && Known(v, names)
    ensures Fields(v, names) + x
      == if names == [] then "." + x
         else "1" + (Chars(names[0]) + (Render(v.fields[names[0]]) + (Fields(v, names[1..]) + x)))
  {
    if names != [] {
      var name, value, rest := Chars(names[0]), Render(v.fields[names[0]]), Fields(v, names[1..]);
      Regroup("1" + name + value, rest, x);
      Regroup("1" + name, value, rest + x);
      Regroup("1", name, value + (rest + x));
    }
  }

  ghost predicate Agree(v: Value, w: Value, names: seq<string>)
    requires v.Obj? && w.Obj?
  {
    forall i :: 0 <= i < |names| ==>
      names[i] in v.fields && names[i] in w.fields && v.fields[names[i]] == w.fields[names[i]]
  }

  lemma {:induction false} FieldsArePrefixFree(v: Value, w: Value, names: seq<string>, others: seq<string>, x: string,
    y: string)
    requires v.Obj? && w.Obj? && Known(v, names) && Known(w, others) && Fields(v, names) + x == Fields(w, others) + y
    ensures names == others && Agree(v, w, names) && x == y
    decreases v, 0, |names|
  {
    FieldsSplit(v, names, x);
    FieldsSplit(w, others, y);
    if names == [] || others == [] {
      Head(if names == [] then "." else "1", if others == [] then "." else "1",
           if names == [] then x else Chars(names[0]) + (Render(v.fields[names[0]]) + (Fields(v, names[1..]) + x)),
           if others == [] then y else Chars(others[0]) + (Render(w.fields[others[0]]) + (Fields(w, others[1..]) + y)));
    } else {
      var a, b := v.fields[names[0]], w.fields[others[0]];
      Head("1", "1", Chars(names[0]) + (Render(a) + (Fields(v, names[1..]) + x)),
        Chars(others[0]) + (Render(b) + (Fields(w, others[1..]) + y)));
      CharsArePrefixFree(names[0], others[0], Render(a) + (Fields(v, names[1..]) + x),
        Render(b) + (Fields(w, others[1..]) + y));
      RenderIsPrefixFree(a, b, Fields(v, names[1..]) + x, Fields(w, others[1..]) + y);
      FieldsArePrefixFree(v, w, names[1..], others[1..], x, y);
      assert names == [names[0]] + names[1..] && others == [others[0]] + others[1..];
      forall i | 0 <= i < |names| ensures names[i] in w.fields && v.fields[names[i]] == w.fields[names[i]] {
        if i > 0 { assert names[i] == names[1..][i - 1]; }
      }
    }
  }

  lemma SameFields(v: Value, w: Value)
    requires v.Obj? && w.Obj? && Listed(v.fields.Keys) == Listed(w.fields.Keys) && Agree(v, w, Listed(v.fields.Keys))
    ensures v == w
  {
    ListedIsComplete(v.fields.Keys);
    ListedIsComplete(w.fields.Keys);
    assert v.fields.Keys == w.fields.Keys;
    forall name | name in v.fields ensures v.fields[name] == w.fields[name] {
      assert name in Listed(v.fields.Keys);
    }
    assert v.fields == w.fields;
  }

  // --------------------------------------------------------------- one line

  predicate OneLine(s: string) { forall i :: 0 <= i < |s| ==> s[i] != '\n' && s[i] != '\r' }

  lemma {:induction false} UnaryIsOneLine(n: nat)
    ensures OneLine(Unary(n))
  {
    if n > 0 { UnaryIsOneLine(n - 1); }
  }

  lemma {:induction false} CharsAreOneLine(s: string)
    ensures OneLine(Chars(s))
  {
    if s != [] {
      UnaryIsOneLine(s[0] as nat);
      CharsAreOneLine(s[1..]);
    }
  }

  lemma {:induction false} RenderIsOneLine(v: Value)
    ensures OneLine(Render(v))
    decreases v, 1, 0
  {
    match v
    case Null =>
    case Bool(_) =>
    case Num(m, places) =>
      UnaryIsOneLine(if m < 0 then -m else m);
      UnaryIsOneLine(places);
    case Str(s) => CharsAreOneLine(s);
    case Arr(_) => ItemsAreOneLine(v, 0);
    case Obj(_) => FieldsAreOneLine(v, Listed(v.fields.Keys));
  }

  lemma {:induction false} ItemsAreOneLine(v: Value, i: nat)
    requires v.Arr? && i <= |v.items|
    ensures OneLine(Items(v, i))
    decreases v, 0, |v.items| - i
  {
    if i < |v.items| {
      RenderIsOneLine(v.items[i]);
      ItemsAreOneLine(v, i + 1);
    }
  }

  lemma {:induction false} FieldsAreOneLine(v: Value, names: seq<string>)
    requires v.Obj?
    ensures OneLine(Fields(v, names))
    decreases v, 0, |names|
  {
    if names != [] {
      CharsAreOneLine(names[0]);
      if names[0] in v.fields { RenderIsOneLine(v.fields[names[0]]); }
      FieldsAreOneLine(v, names[1..]);
    }
  }

  lemma OneLineIsPlain(y: string)
    requires OneLine(y)
    ensures Plain(y)
  {
    forall i | 0 <= i <= |y| ensures !OccursAt(y, "\n---", i) {
      assert i < |y| && i + 4 <= |y| ==> y[i..i + 4][0] != '\n';
    }
  }

  // ---------------------------------------------------------------- instance

  ghost function Read(text: string): Option<Value> {
    if v: Value :| Render(v) == text then Some(v) else None
  }

  lemma ReadInverts(v: Value)
    ensures Read(Render(v)) == Some(v)
  {
    var r := Read(Render(v));
    assert r.Some? && Render(r.value) == Render(v);
    RenderIsPrefixFree(r.value, v, "", "");
  }

  /** Some library is faithful. */
  lemma FaithfulLibrary() returns (yaml: Yaml)
    ensures Faithful(yaml)
  {
    yaml := Yaml(v => Render(v), text => Read(text));
    forall fields ensures ComesBack(yaml, fields) {
      ReadInverts(Obj(fields));
      RenderIsOneLine(Obj(fields));
      OneLineIsPlain(Render(Obj(fields)));
    }
  }

  /** And some environment meets all the assumptions of both formats. */
  lemma SaneEnvironment() returns (o: O.Okf)
    ensures O.OkfSane(o)
  {
    var yaml := FaithfulLibrary();
    var lower := (s: string) => if s == "Concept" then "concept" else if s == "Decision" then "decision"
      else if s == "Source" then "source" else s;
    o := O.Okf(B.Env(yaml, lower, s => None, (a, b) => true), "", v => "");
    assert "Concept"[0] == 'C' && "Decision"[0] == 'D' && "Source"[0] == 'S';
  }
}
