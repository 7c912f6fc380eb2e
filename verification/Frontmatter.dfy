/**
 * YAML frontmatter around a body (src/markdown.ts).
 *
 * The body is kept byte for byte; the data is read and written by the YAML library.
 */
module Frontmatter {
  import opened Wrappers
  import opened Text
  import opened Lines

  /** A frontmatter value. A number is mantissa / 10^places. */
  datatype Value =
    | Null
    | Bool(b: bool)
    | Num(mantissa: int, places: nat)
    | Str(s: string)
    | Arr(items: seq<Value>)
    | Obj(fields: map<string, Value>)

  function Field(v: Value, name: string): Option<Value> {
    if v.Obj? && name in v.fields then Some(v.fields[name]) else None
  }

  /** The YAML library: render gives the text without its final line break. */
  datatype Yaml = Yaml(render: Value -> string, parse: string -> Option<Value>)

  /** No line of the text starts like a fence, and no carriage return runs into the closing one. */
  predicate Plain(y: string) { !Contains(y, "\n---") && (y != "" ==> y[|y| - 1] != '\r') }

  /** What is assumed of the library: objects come back, and their text holds no fence. */
  ghost predicate Faithful(yaml: Yaml) {
    forall fields :: ComesBack(yaml, fields)
  }

  predicate ComesBack(yaml: Yaml, fields: map<string, Value>) {
    yaml.parse(yaml.render(Obj(fields))) == Some(Obj(fields)) && Plain(yaml.render(Obj(fields)))
  }

  datatype Error = Unterminated | BadYaml | NotAnObject
  datatype Parsed = Parsed(data: Value, content: string)

  /** A closing fence at g: an optional carriage return, a line break, three hyphens, then a line break or the end. */
  function FenceAt(rest: string, g: nat): Option<nat> {
    var h := if g < |rest| && rest[g] == '\r' then g + 1 else g;
    if !OccursAt(rest, "\n---", h) then None
    else if h + 4 == |rest| then Some(h + 4)
    else if rest[h + 4] == '\n' then Some(h + 5)
    else if OccursAt(rest, "\r\n", h + 4) then Some(h + 6)
    else None
  }

  predicate FirstFence(rest: string, g: nat) {
    FenceAt(rest, g).Some? && forall k :: 0 <= k < g ==> FenceAt(rest, k).None?
  }

  lemma {:induction false} FirstFenceExists(rest: string, g: nat) returns (k: nat)
    requires FenceAt(rest, g).Some?
    ensures k <= g && FirstFence(rest, k)
    decreases g
  {
    if j :| 0 <= j < g && FenceAt(rest, j).Some? { k := FirstFenceExists(rest, j); } else { k := g; }
  }

  function FindFence(rest: string): (r: Option<nat>)
    ensures r.Some? <==> exists g :: 0 <= g < |rest| && FirstFence(rest, g)
    ensures r.Some? ==> r.value < |rest| && FirstFence(rest, r.value)
  {
    if g :| 0 <= g < |rest| && FirstFence(rest, g) then Some(g) else None
  }

  lemma FenceIs(rest: string, g: nat)
    requires g < |rest| && FirstFence(rest, g)
    ensures FindFence(rest) == Some(g)
  {
  }

  /** parseFrontmatter: the header is the shortest text up to a closing fence. */
  function ParseFrontmatter(yaml: Yaml, text: string): Result<Parsed, Error> {
    if !("---\n" <= text) && !("---\r\n" <= text) then Ok(Parsed(Obj(map[]), text))
    else
      var rest := if "---\n" <= text then text[4..] else text[5..];
      var fence := FindFence(rest);
      if fence.None? then Err(Unterminated)
      else
        var end := FenceAt(rest, fence.value).value;
        var data := yaml.parse(rest[..fence.value]);
        if data.None? then Err(BadYaml)
        else if data.value == Null then Ok(Parsed(Obj(map[]), rest[end..]))
        else if !data.value.Obj? then Err(NotAnObject)
        else Ok(Parsed(data.value, rest[end..]))
  }

  /** serializeFrontmatter: no fence for no data. */
  function SerializeFrontmatter(yaml: Yaml, data: Value, content: string): string
    requires data.Obj?
  {
    if data.fields == map[] then content else "---\n" + yaml.render(data) + "\n---\n" + content
  }

  /** The text of a document: its data between two lines of three hyphens, then its body as it is. */
  lemma SerializedIs(yaml: Yaml, fields: map<string, Value>, content: string)
    ensures SerializeFrontmatter(yaml, Obj(map[]), content) == content
    ensures fields != map[] ==>
      SerializeFrontmatter(yaml, Obj(fields), content) == Join(["---", yaml.render(Obj(fields)), "---", content], '\n')
  {
    var y := yaml.render(Obj(fields));
    var two, three := ["---", content], [y, "---", content];
    assert two[1..] == [content] && three[1..] == two && ["---", y, "---", content][1..] == three;
    assert Join(two, '\n') == "---" + ['\n'] + content;
    assert Join(three, '\n') == y + ['\n'] + Join(two, '\n');
    assert "---" + ['\n'] + (y + ['\n'] + ("---" + ['\n'] + content)) == "---\n" + y + "\n---\n" + content;
  }

  lemma FenceIsClosing(y: string, content: string)
    requires Plain(y)
    ensures FirstFence(y + "\n---\n" + content, |y|) && FenceAt(y + "\n---\n" + content, |y|) == Some(|y| + 5)
  {
    var rest := y + "\n---\n" + content;
    assert rest[|y|..|y| + 4] == "\n---";
    assert rest[|y| + 4] == '\n';
    forall k: nat | k < |y| ensures FenceAt(rest, k).None? { NoEarlierFence(y, content, k); }
  }

  lemma NoEarlierFence(y: string, content: string, k: nat)
    requires Plain(y) && k < |y|
    ensures FenceAt(y + "\n---\n" + content, k).None?
  {
    var rest := y + "\n---\n" + content;
    var h := if rest[k] == '\r' then k + 1 else k;
    if OccursAt(rest, "\n---", h) {
      OccursChar(rest, "\n---", h, 0);
      assert h < |y|;
      if h + 4 <= |y| {
        assert y[h..h + 4] == rest[h..h + 4];
        assert OccursAt(y, "\n---", h);
      } else {
        OccursChar(rest, "\n---", h, |y| - h);
      }
    }
  }

  /** The body comes back byte for byte and the data as it was, whatever the body holds. */
  lemma FrontmatterRoundTrips(yaml: Yaml, data: Value, content: string)
    requires Faithful(yaml) && data.Obj? && data.fields != map[]
    ensures ParseFrontmatter(yaml, SerializeFrontmatter(yaml, data, content)) == Ok(Parsed(data, content))
  {
    var y := yaml.render(Obj(data.fields));
    assert data == Obj(data.fields) && ComesBack(yaml, data.fields);
    var text := SerializeFrontmatter(yaml, data, content);
    var rest := y + "\n---\n" + content;
    assert text == "---\n" + rest;
    assert text[..4] == "---\n" && text[4..] == rest;
    FenceIsClosing(y, content);
    assert rest[..|y|] == y && rest[|y| + 5..] == content;
    FenceIs(rest, |y|);
  }

  predicate LooksFenced(text: string) { "---\n" <= text || "---\r\n" <= text }

  /** Without data the text is the bare body; it comes back exactly when it does not itself open with a fence. */
  lemma BareBodyRoundTrips(yaml: Yaml, content: string)
    ensures ParseFrontmatter(yaml, SerializeFrontmatter(yaml, Obj(map[]), content)) == Ok(Parsed(Obj(map[]), content))
      <==> !LooksFenced(content)
  {
    if LooksFenced(content) {
      var rest := if "---\n" <= content then content[4..] else content[5..];
      assert |rest| < |content|;
    }
  }
}
