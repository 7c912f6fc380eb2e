/**
 * Redaction of audit payloads (sanitizeAuditPayload, src/domain/audit.ts).
 *
 * A payload is a JSON value. Values under secret keys are replaced, long texts and lists
 * are cut, deep nesting is capped, and a record that is still too large is dropped.
 */
module Audit {
  import opened Text
  import opened Lines

  datatype Json = Null | Bool(b: bool) | Num(n: int) | Str(s: string) | Arr(items: seq<Json>)
    | Obj(fields: map<string, Json>)

  const REDACTED := "[redacted]"
  const CAPPED := "[depth-capped]"
  const TRUNCATED := "\U{2026}[truncated]"
  const MAX_STRING := 2000
  const MAX_DEPTH := 6
  const MAX_ITEMS := 200

  /** The words whose presence in a key marks its value. */
  function Words(): seq<string> {
    ["secret", "token", "password", "passwd", "apikey", "api-key", "api_key", "authorization", "credential", "cookie",
     "privatekey", "private-key", "private_key", "signature", "bearer", "salt", "nonce", "prompt", "messages",
       "instructions"]
  }

  type Lower = string -> string

  predicate IsSecretKey(lower: Lower, key: string) {
    lower(key) != "prompt_version" && exists i :: 0 <= i < |Words()| && Contains(lower(key), Words()[i])
  }

  function Cut(s: string): string { if |s| > MAX_STRING then s[..MAX_STRING] + TRUNCATED else s }

  function Limited<T>(s: seq<T>): seq<T> { if |s| > MAX_ITEMS then s[..MAX_ITEMS] else s }

  /** sanitizeValue */
  function Sanitize(lower: Lower, v: Json, depth: nat): Json
    requires depth <= MAX_DEPTH
    decreases MAX_DEPTH - depth
  {
    match v
    case Null => Null
    case Bool(_) => v
    case Num(_) => v
    case Str(s) => Str(Cut(s))
    case Arr(items) =>
      if depth >= MAX_DEPTH then Str(CAPPED)
      else Arr(seq(|Limited(items)|, i requires 0 <= i < |Limited(items)| =>
        Sanitize(lower, Limited(items)[i], depth + 1)))
    case Obj(fields) =>
      if depth >= MAX_DEPTH then Str(CAPPED)
      else Obj(map k | k in fields :: if IsSecretKey(lower, k) then Str(REDACTED)
        else Sanitize(lower, fields[k], depth + 1))
  }

  /** What is kept: short texts, the first 2000 characters of long ones, the first 200 items, every key. */
  lemma KeptIs(lower: Lower, v: Json, depth: nat, i: nat, k: string)
    requires depth <= 6
    ensures v.Null? || v.Bool? || v.Num? ==> Sanitize(lower, v, depth) == v
    ensures v.Str? ==>
      Sanitize(lower, v, depth) == Str(if |v.s| <= 2000 then v.s else v.s[..2000] + "\U{2026}[truncated]")
    ensures (v.Arr? || v.Obj?) && depth == 6 ==> Sanitize(lower, v, depth) == Str("[depth-capped]")
    ensures v.Arr? && depth < 6 ==>
      var r := Sanitize(lower, v, depth);
      && r.Arr? && |r.items| == (if |v.items| <= 200 then |v.items| else 200)
      && (i < |r.items| ==> r.items[i] == Sanitize(lower, v.items[i], depth + 1))
    ensures v.Obj? && depth < 6 ==>
      var r := Sanitize(lower, v, depth);
      && r.Obj? && r.fields.Keys == v.fields.Keys
      && (k in v.fields ==>
            r.fields[k] == if IsSecretKey(lower, k) then Str("[redacted]") else Sanitize(lower, v.fields[k], depth + 1))
  {
  }

  /** Which keys are secret: those that hold one of these words, in any case, but for prompt_version. */
  lemma SecretKeysAre(lower: Lower, key: string)
    ensures IsSecretKey(lower, key) <==>
      lower(key) != "prompt_version"
      && exists word, i :: word in Words() && 0 <= i <= |lower(key)| && OccursAt(lower(key), word, i)
    ensures Words()
      == ["secret", "token", "password", "passwd", "apikey", "api-key", "api_key", "authorization", "credential",
          "cookie", "privatekey", "private-key", "private_key", "signature", "bearer", "salt", "nonce", "prompt",
          "messages", "instructions"]
  {
    var name := lower(key);
    if word, i :| word in Words() && 0 <= i <= |name| && OccursAt(name, word, i) {
      var k :| 0 <= k < |Words()| && Words()[k] == word;
      assert Contains(name, Words()[k]);
    }
  }

  // --------------------------------------------------------------- secrecy

  /** Two payloads an observer without the secrets cannot tell apart: equal except below secret keys. */
  ghost predicate Alike(lower: Lower, v: Json, w: Json, depth: nat)
    requires depth <= MAX_DEPTH
    decreases MAX_DEPTH - depth
  {
    match v
    case Arr(items) =>
      w.Arr? && |w.items| == |items|
      && (depth < MAX_DEPTH ==> forall i :: 0 <= i < |items| ==> Alike(lower, items[i], w.items[i], depth + 1))
    case Obj(fields) =>
      w.Obj? && w.fields.Keys == fields.Keys
      && (depth < MAX_DEPTH ==> forall k :: k in fields && !IsSecretKey(lower, k) ==>
        k in w.fields && Alike(lower, fields[k], w.fields[k], depth + 1))
    case _ => v == w
  }

  lemma SameItems(lower: Lower, a: seq<Json>, b: seq<Json>, depth: nat)
    requires depth < MAX_DEPTH && |a| == |b|
    requires forall i :: 0 <= i < |a| ==> Sanitize(lower, a[i], depth + 1) == Sanitize(lower, b[i], depth + 1)
    ensures Sanitize(lower, Arr(a), depth) == Sanitize(lower, Arr(b), depth)
  {
    assert forall i :: 0 <= i < |Limited(a)| ==> Limited(a)[i] == a[i] && Limited(b)[i] == b[i];
    assert Sanitize(lower, Arr(a), depth).items == Sanitize(lower, Arr(b), depth).items;
  }

  lemma SameKeys(a: map<string, Json>, b: map<string, Json>)
    requires a.Keys == b.Keys
    ensures forall k :: k in a <==> k in b
  {
    assert forall k :: k in a.Keys <==> k in b.Keys;
  }

  lemma SameFields(lower: Lower, a: map<string, Json>, b: map<string, Json>, depth: nat)
    requires depth < MAX_DEPTH && forall k :: k in a <==> k in b
    requires forall k :: k in a && !IsSecretKey(lower, k) ==>
      Sanitize(lower, a[k], depth + 1) == Sanitize(lower, b[k], depth + 1)
    ensures Sanitize(lower, Obj(a), depth) == Sanitize(lower, Obj(b), depth)
  {
    assert Sanitize(lower, Obj(a), depth).fields == Sanitize(lower, Obj(b), depth).fields;
  }

  /** Nothing below a secret key influences the record. */
  lemma {:induction false} RedactionHidesSecrets(lower: Lower, v: Json, w: Json, depth: nat)
    requires depth <= MAX_DEPTH && Alike(lower, v, w, depth)
    ensures Sanitize(lower, v, depth) == Sanitize(lower, w, depth)
    decreases MAX_DEPTH - depth
  {
    if depth < MAX_DEPTH {
      if v.Arr? {
        forall i | 0 <= i < |v.items| ensures Sanitize(lower, v.items[i], depth + 1) ==
          Sanitize(lower, w.items[i], depth + 1) {
          RedactionHidesSecrets(lower, v.items[i], w.items[i], depth + 1);
        }
        SameItems(lower, v.items, w.items, depth);
      } else if v.Obj? {
        SameKeys(v.fields, w.fields);
        forall k | k in v.fields && !IsSecretKey(lower, k)
          ensures Sanitize(lower, v.fields[k], depth + 1) == Sanitize(lower, w.fields[k], depth + 1)
        {
          FieldsAlike(lower, v.fields, w.fields, depth, k);
          RedactionHidesSecrets(lower, v.fields[k], w.fields[k], depth + 1);
        }
        SameFields(lower, v.fields, w.fields, depth);
      }
    }
  }

  lemma FieldsAlike(lower: Lower, a: map<string, Json>, b: map<string, Json>, depth: nat, k: string)
    requires depth < MAX_DEPTH && Alike(lower, Obj(a), Obj(b), depth) && k in a && !IsSecretKey(lower, k)
    ensures k in b && Alike(lower, a[k], b[k], depth + 1)
  {
  }

  /**
   * No value below a secret key but the marker, no text over the limit, no list over the limit, no
   * nesting over the limit.
   */
  predicate Clean(lower: Lower, v: Json, depth: nat)
    requires depth <= MAX_DEPTH
    decreases MAX_DEPTH - depth
  {
    match v
    case Str(s) => |s| <= MAX_STRING || (|s| == MAX_STRING + |TRUNCATED| && s[MAX_STRING..] == TRUNCATED)
    case Arr(items) => depth < MAX_DEPTH && |items| <= MAX_ITEMS && forall i :: 0 <= i < |items| ==>
      Clean(lower, items[i], depth + 1)
    case Obj(fields) =>
      depth < MAX_DEPTH
      && forall k :: k in fields ==> if IsSecretKey(lower, k) then fields[k] == Str(REDACTED)
        else Clean(lower, fields[k], depth + 1)
    case _ => true
  }

  lemma {:induction false} SanitizedIsClean(lower: Lower, v: Json, depth: nat)
    requires depth <= MAX_DEPTH
    ensures Clean(lower, Sanitize(lower, v, depth), depth)
    decreases MAX_DEPTH - depth
  {
    if depth < MAX_DEPTH {
      if v.Arr? {
        forall i | 0 <= i < |Limited(v.items)| ensures Clean(lower, Sanitize(lower, Limited(v.items)[i], depth + 1),
          depth + 1) {
          SanitizedIsClean(lower, Limited(v.items)[i], depth + 1);
        }
      } else if v.Obj? {
        forall k | k in v.fields && !IsSecretKey(lower, k)
          ensures Clean(lower, Sanitize(lower, v.fields[k], depth + 1), depth + 1) {
          SanitizedIsClean(lower, v.fields[k], depth + 1);
        }
      }
    }
  }

  lemma FixedItems(lower: Lower, items: seq<Json>, depth: nat)
    requires depth < MAX_DEPTH && |items| <= MAX_ITEMS
    requires forall i :: 0 <= i < |items| ==> Sanitize(lower, items[i], depth + 1) == items[i]
    ensures Sanitize(lower, Arr(items), depth) == Arr(items)
  {
    assert Sanitize(lower, Arr(items), depth).items == items;
  }

  lemma FixedFields(lower: Lower, fields: map<string, Json>, depth: nat)
    requires depth < MAX_DEPTH
    requires forall k :: k in fields ==> fields[k] == if IsSecretKey(lower, k) then Str(REDACTED)
      else Sanitize(lower, fields[k], depth + 1)
    ensures Sanitize(lower, Obj(fields), depth) == Obj(fields)
  {
    assert Sanitize(lower, Obj(fields), depth).fields == fields;
  }

  /** A clean payload is left alone, so sanitizing twice is sanitizing once. */
  lemma {:induction false} CleanIsFixed(lower: Lower, v: Json, depth: nat)
    requires depth <= MAX_DEPTH && Clean(lower, v, depth)
    ensures Sanitize(lower, v, depth) == v
    decreases MAX_DEPTH - depth
  {
    if v.Str? {
      if |v.s| > MAX_STRING { assert v.s == v.s[..MAX_STRING] + v.s[MAX_STRING..]; }
    } else if v.Arr? {
      forall i | 0 <= i < |v.items| ensures Sanitize(lower, v.items[i], depth + 1) == v.items[i] {
        CleanIsFixed(lower, v.items[i], depth + 1);
      }
      FixedItems(lower, v.items, depth);
    } else if v.Obj? {
      forall k | k in v.fields && !IsSecretKey(lower, k)
        ensures Sanitize(lower, v.fields[k], depth + 1) == v.fields[k] {
        CleanIsFixed(lower, v.fields[k], depth + 1);
      }
      FixedFields(lower, v.fields, depth);
    }
  }

  lemma SanitizingSettles(lower: Lower, v: Json)
    ensures Sanitize(lower, Sanitize(lower, v, 0), 0) == Sanitize(lower, v, 0)
  {
    SanitizedIsClean(lower, v, 0);
    CleanIsFixed(lower, Sanitize(lower, v, 0), 0);
  }

  const MAX_PAYLOAD := 32000

  /** sanitizeAuditPayload; size is the length of the encoded text. */
  function SanitizePayload(lower: Lower, size: Json -> nat, v: Json): Json {
    var cleaned := Sanitize(lower, v, 0);
    if v.Null? then Null
    else if size(cleaned) > MAX_PAYLOAD then
      Obj(map["_dropped" := Str("payload exceeded the audit size cap"), "bytes" := Num(size(cleaned))])
    else cleaned
  }

  /** Neither the record nor the size it is dropped for depends on a secret. */
  lemma PayloadHidesSecrets(lower: Lower, size: Json -> nat, v: Json, w: Json)
    requires Alike(lower, v, w, 0)
    ensures SanitizePayload(lower, size, v) == SanitizePayload(lower, size, w)
  {
    RedactionHidesSecrets(lower, v, w, 0);
  }

  /** Only a record of more than 32000 characters is dropped, and then its size is all that stays. */
  lemma DroppedIs(lower: Lower, size: Json -> nat, v: Json)
    requires !v.Null?
    ensures size(Sanitize(lower, v, 0)) <= 32_000 ==> SanitizePayload(lower, size, v) == Sanitize(lower, v, 0)
    ensures size(Sanitize(lower, v, 0)) > 32_000 ==>
      SanitizePayload(lower, size, v)
      == Obj(map["_dropped" := Str("payload exceeded the audit size cap"), "bytes" := Num(size(Sanitize(lower, v, 0)))])
  {
  }
}
