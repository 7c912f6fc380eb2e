/**
 * White space, trimming and searching in text, as JavaScript's built-ins do them.
 *
 * Trimming is characterised by what it leaves: no white space at either end. A search
 * finds the first occurrence. A pattern without line breaks cannot straddle one, which
 * is what the documents of the other modules rest on.
 */
module Lines {
  import opened Wrappers
  import opened Text

  // ---------------------------------------------------------- white space

  predicate White(c: char) {
    var n := c as int;
    || 9 <= n <= 13 || n == 32 || n == 0xA0 || n == 0x1680 || 0x2000 <= n <= 0x200A
    || n == 0x2028 || n == 0x2029 || n == 0x202F || n == 0x205F || n == 0x3000 || n == 0xFEFF
  }

  function TrimStart(s: string): string {
    if s != "" && White(s[0]) then TrimStart(s[1..]) else s
  }

  function TrimEnd(s: string): string {
    if s != "" && White(s[|s| - 1]) then TrimEnd(s[..|s| - 1]) else s
  }

  function Trim(s: string): string { TrimEnd(TrimStart(s)) }

  predicate Trimmed(s: string) { s == "" || (!White(s[0]) && !White(s[|s| - 1])) }

  lemma {:induction false} TrimEndShape(s: string)
    ensures TrimEnd(s) <= s && (TrimEnd(s) != "" ==> !White(TrimEnd(s)[|TrimEnd(s)| - 1]))
    decreases |s|
  {
    if s != "" && White(s[|s| - 1]) { TrimEndShape(s[..|s| - 1]); }
  }

  lemma {:induction false} TrimStartShape(s: string)
    ensures |TrimStart(s)| <= |s| && (TrimStart(s) != "" ==> !White(TrimStart(s)[0]))
    ensures forall c :: c in TrimStart(s) ==> c in s
    decreases |s|
  {
    if s != "" && White(s[0]) { TrimStartShape(s[1..]); }
  }

  /** Trimming leaves no white space at either end, only drops characters, and leaves a trimmed text alone. */
  lemma TrimTrims(s: string)
    ensures Trimmed(Trim(s)) && |Trim(s)| <= |s| && (Trimmed(s) ==> Trim(s) == s)
    ensures forall c :: c in Trim(s) ==> c in s
  {
    TrimStartShape(s);
    TrimEndShape(TrimStart(s));
    assert forall c :: c in TrimEnd(TrimStart(s)) ==> c in TrimStart(s);
  }

  lemma {:induction false} TrimEndKeeps(o: string, j: nat)
    requires j < |o| && !White(o[j])
    ensures |TrimEnd(o)| > j
    decreases |o|
  {
    if White(o[|o| - 1]) { TrimEndKeeps(o[..|o| - 1], j); }
  }

  lemma {:induction false} TrimStartKeeps(s: string, i: nat)
    requires i < |s| && !White(s[i])
    ensures |s| - i <= |TrimStart(s)| <= |s| && TrimStart(s) == s[|s| - |TrimStart(s)|..]
    decreases |s|
  {
    if White(s[0]) { TrimStartKeeps(s[1..], i - 1); }
  }

  /** What lies between two characters that are not white space survives trimming. */
  lemma TrimSpan(s: string, i: nat, j: nat)
    requires i <= j < |s| && !White(s[i]) && !White(s[j])
    ensures |Trim(s)| > j - i
  {
    TrimStartKeeps(s, i);
    var k := |s| - |TrimStart(s)|;
    TrimEndKeeps(TrimStart(s), j - k);
  }

  /** A trimmed text is a stretch of the text. */
  lemma {:induction false} TrimIsInside(s: string) returns (k: nat)
    ensures k + |Trim(s)| <= |s| && s[k..k + |Trim(s)|] == Trim(s)
    decreases |s|
  {
    if s != "" && White(s[0]) {
      var i := TrimIsInside(s[1..]);
      var n := |Trim(s)|;
      assert s[1..][i..i + n] == s[i + 1..i + 1 + n];
      k := i + 1;
    } else {
      TrimEndShape(s);
      k := 0;
    }
  }

  /** A line break on either side of a trimmed text is trimmed away. */
  lemma TrimFramed(s: string)
    requires Trimmed(s)
    ensures Trim("\n" + s + "\n") == s
  {
    var t := "\n" + s + "\n";
    assert t[1..] == s + "\n";
    if s == "" {
      assert TrimStart("\n") == TrimStart("");
    } else {
      assert TrimStart(s + "\n") == s + "\n";
      assert (s + "\n")[..|s|] == s;
      assert TrimEnd(s + "\n") == TrimEnd(s) == s;
    }
  }

  /** Every run of white space as one space. */
  function Squeeze(s: string): string {
    if s == "" then ""
    else if !White(s[0]) then [s[0]] + Squeeze(s[1..])
    else if |s| > 1 && White(s[1]) then Squeeze(s[1..])
    else " " + Squeeze(s[1..])
  }

  /** inlineText: one line, whatever the text. */
  function Inline(s: string): string { Trim(Squeeze(s)) }

  predicate Spaced(s: string) {
    && (forall i :: 0 <= i < |s| && White(s[i]) ==> s[i] == ' ')
    && (forall i :: 0 <= i < |s| - 1 && White(s[i]) ==> !White(s[i + 1]))
  }

  lemma {:induction false} SqueezeSpaces(s: string)
    ensures Spaced(Squeeze(s)) && (s != "" && !White(s[0]) ==> Squeeze(s) != "" && Squeeze(s)[0] == s[0])
    decreases |s|
  {
    if s != "" {
      SqueezeSpaces(s[1..]);
      if White(s[0]) && (|s| == 1 || !White(s[1])) { assert s[1..] != "" ==> !White(Squeeze(s[1..])[0]); }
    }
  }

  /** The result is a single line. */
  lemma InlineIsOneLine(s: string)
    ensures Free(Inline(s), '\n') && Free(Inline(s), '\r')
  {
    SqueezeSpaces(s);
    TrimTrims(Squeeze(s));
    forall i | 0 <= i < |Inline(s)| ensures Inline(s)[i] != '\n' && Inline(s)[i] != '\r' {
      assert Inline(s)[i] in Squeeze(s);
    }
  }

  // ------------------------------------------------------------ searching

  predicate OccursAt(text: string, p: string, i: nat) { i + |p| <= |text| && text[i..i + |p|] == p }

  predicate Contains(text: string, p: string) { exists i :: 0 <= i <= |text| && OccursAt(text, p, i) }

  predicate FirstAt(text: string, p: string, i: nat) {
    OccursAt(text, p, i) && forall k :: 0 <= k < i ==> !OccursAt(text, p, k)
  }

  lemma {:induction false} FirstExists(text: string, p: string, i: nat) returns (j: nat)
    requires OccursAt(text, p, i)
    ensures j <= i && FirstAt(text, p, j)
    decreases i
  {
    if k :| 0 <= k < i && OccursAt(text, p, k) { j := FirstExists(text, p, k); } else { j := i; }
  }

  /** indexOf */
  function IndexOf(text: string, p: string): (r: Option<nat>)
    ensures r.Some? ==> FirstAt(text, p, r.value)
    ensures r.None? ==> !Contains(text, p)
  {
    if i :| 0 <= i <= |text| && FirstAt(text, p, i) then Some(i)
    else
      assert !Contains(text, p) by {
        if k :| 0 <= k <= |text| && OccursAt(text, p, k) { var j := FirstExists(text, p, k); }
      }
      None
  }

  lemma OccursChar(text: string, p: string, i: nat, k: nat)
    requires OccursAt(text, p, i) && k < |p|
    ensures text[i + k] == p[k]
  {
    assert text[i..i + |p|][k] == text[i + k];
  }

  /** A pattern without line breaks occurs within one side of a line break. */
  lemma OccursInLines(a: string, b: string, p: string, i: nat)
    requires Free(p, '\n') && p != ""
    ensures OccursAt(a + "\n" + b, p, i) <==> OccursAt(a, p, i) || (i > |a| && OccursAt(b, p, i - |a| - 1))
  {
    var t := a + "\n" + b;
    if i + |p| <= |a| {
      assert t[i..i + |p|] == a[i..i + |p|];
    } else if i > |a| {
      if i + |p| <= |t| { assert t[i..i + |p|] == b[i - |a| - 1..i - |a| - 1 + |p|]; }
    } else if OccursAt(t, p, i) {
      OccursChar(t, p, i, |a| - i);
    }
  }

  lemma IndexIs(text: string, p: string, i: nat)
    requires FirstAt(text, p, i)
    ensures IndexOf(text, p) == Some(i)
  {
    assert Contains(text, p);
  }

  lemma FirstAfter(a: string, b: string, p: string, j: nat)
    requires Free(p, '\n') && p != "" && !Contains(a, p) && FirstAt(b, p, j)
    ensures FirstAt(a + "\n" + b, p, |a| + 1 + j)
  {
    OccursInLines(a, b, p, |a| + 1 + j);
    forall k: nat | k < |a| + 1 + j ensures !OccursAt(a + "\n" + b, p, k) {
      OccursInLines(a, b, p, k);
      assert OccursAt(a, p, k) ==> k <= |a|;
    }
  }

  /** A pattern absent from the first part is first found in the second, shifted. */
  lemma FoundAfter(a: string, b: string, p: string)
    requires Free(p, '\n') && p != "" && !Contains(a, p) && Contains(b, p)
    ensures IndexOf(a + "\n" + b, p) == Some(|a| + 1 + IndexOf(b, p).value)
  {
    FirstAfter(a, b, p, IndexOf(b, p).value);
    IndexIs(a + "\n" + b, p, |a| + 1 + IndexOf(b, p).value);
  }

  lemma FirstBefore(a: string, b: string, p: string, j: nat)
    requires Free(p, '\n') && p != "" && FirstAt(a, p, j)
    ensures FirstAt(a + "\n" + b, p, j)
  {
    OccursInLines(a, b, p, j);
    forall k: nat | k < j ensures !OccursAt(a + "\n" + b, p, k) { OccursInLines(a, b, p, k); }
  }

  /** A pattern present in the first part is found there. */
  lemma FoundBefore(a: string, b: string, p: string)
    requires Free(p, '\n') && p != "" && Contains(a, p)
    ensures IndexOf(a + "\n" + b, p) == IndexOf(a, p)
  {
    FirstBefore(a, b, p, IndexOf(a, p).value);
    IndexIs(a + "\n" + b, p, IndexOf(a, p).value);
  }

  /** A pattern absent from both parts is absent from their lines together. */
  lemma AbsentFromBoth(a: string, b: string, p: string)
    requires Free(p, '\n') && p != ""
    ensures Contains(a + "\n" + b, p) <==> Contains(a, p) || Contains(b, p)
  {
    if Contains(a + "\n" + b, p) {
      var i :| 0 <= i <= |a + "\n" + b| && OccursAt(a + "\n" + b, p, i);
      OccursInLines(a, b, p, i);
    }
    if i :| 0 <= i <= |a| && OccursAt(a, p, i) { OccursInLines(a, b, p, i); }
    if i :| 0 <= i <= |b| && OccursAt(b, p, i) {
      OccursInLines(a, b, p, |a| + 1 + i);
      assert OccursAt(a + "\n" + b, p, |a| + 1 + i);
    }
  }
}
