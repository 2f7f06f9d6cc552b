/** The struct fields of a Soroban contract type, read out of its source text. */
module SorobanParser {
  import opened Wrappers
  import opened Text
  import opened Brackets

  // ----- The text between a bracket and the one that closes it -----

  /** Every prefix opens at least as often as it closes, and the whole text equally often. */
  ghost predicate Balanced(s: string, open: char, close: char) {
    Net(s, open, close) == 0 && forall k :: 0 <= k <= |s| ==> Net(s[..k], open, close) >= 0
  }

  /** The first `open` stands at `start`, and `end` is where it is closed. */
  ghost predicate BodyAt(text: string, open: char, close: char, start: nat, end: nat) {
    && start < end < |text|
    && open !in text[..start]
    && text[start] == open && text[end] == close
    && Balanced(text[start + 1..end], open, close)
  }

  function IndexFrom(text: string, ch: char, i: nat): (r: nat)
    requires i <= |text|
    ensures i <= r <= |text|
    decreases |text| - i
  {
    if i == |text| || text[i] == ch then i else IndexFrom(text, ch, i + 1)
  }

  /** The index of the first `ch`, or the length of the text. */
  function IndexOf(text: string, ch: char): (r: nat)
    ensures r <= |text|
  {
    IndexFrom(text, ch, 0)
  }

  lemma {:induction false} FirstIndexFrom(text: string, ch: char, i: nat, s: nat)
    requires i <= |text| && s <= |text|
    ensures IndexFrom(text, ch, i) == s <==>
            i <= s && (s < |text| ==> text[s] == ch) && forall k :: i <= k < s ==> text[k] != ch
    decreases |text| - i
  {
    if i < |text| && text[i] != ch {
      FirstIndexFrom(text, ch, i + 1, s);
    }
  }

  lemma FirstIndex(text: string, ch: char, s: nat)
    requires s <= |text|
    ensures IndexOf(text, ch) == s <==> (s < |text| ==> text[s] == ch) && ch !in text[..s]
  {
    FirstIndexFrom(text, ch, 0, s);
    assert (forall k :: 0 <= k < s ==> text[k] != ch) <==> ch !in text[..s] by {
      if k :| 0 <= k < s && text[k] == ch {
        assert text[..s][k] == ch;
      }
    }
  }

  /** The bracket depth at `k`, counted from `from`. */
  function DepthAt(text: string, open: char, close: char, from: nat, k: nat): int
    requires from <= k <= |text|
  {
    Net(text[from..k], open, close)
  }

  /** The text from `from` goes below depth zero at `end` for the first time. */
  ghost predicate ClosesAt(text: string, open: char, close: char, from: nat, end: nat) {
    && from <= end < |text|
    && DepthAt(text, open, close, from, end + 1) < 0
    && forall k :: from <= k <= end ==> DepthAt(text, open, close, from, k) >= 0
  }

  lemma DepthStep(text: string, open: char, close: char, from: nat, k: nat)
    requires from <= k < |text|
    ensures DepthAt(text, open, close, from, k + 1) == DepthAt(text, open, close, from, k) + Delta(text[k], open, close)
  {
    assert text[from..k + 1][..k - from] == text[from..k];
  }

  lemma SliceOfSlice(text: string, from: nat, to: nat, k: nat)
    requires from <= to <= |text| && k <= to - from
    ensures text[from..to][..k] == text[from..from + k]
  {
  }

  lemma BodyThenCloses(text: string, open: char, close: char, s: nat, e: nat)
    requires open != close && BodyAt(text, open, close, s, e)
    ensures s == IndexOf(text, open) && ClosesAt(text, open, close, s + 1, e)
  {
    FirstIndex(text, open, s);
    var body, from := text[s + 1..e], s + 1;
    forall k | from <= k <= e
      ensures DepthAt(text, open, close, from, k) >= 0
    {
      SliceOfSlice(text, from, e, k - from);
    }
    DepthStep(text, open, close, from, e);
  }

  lemma ClosesThenBody(text: string, open: char, close: char, s: nat, e: nat)
    requires open != close && s < |text| && s == IndexOf(text, open) && ClosesAt(text, open, close, s + 1, e)
    ensures BodyAt(text, open, close, s, e)
  {
    FirstIndex(text, open, s);
    var body, from := text[s + 1..e], s + 1;
    DepthStep(text, open, close, from, e);
    forall k | 0 <= k <= |body|
      ensures Net(body[..k], open, close) >= 0
    {
      SliceOfSlice(text, from, e, k);
      assert DepthAt(text, open, close, from, from + k) >= 0;
    }
  }

  /** A body starts after the first opening bracket and ends where the depth first drops below zero. */
  lemma BodyCloses(text: string, open: char, close: char, s: nat, e: nat)
    requires open != close
    ensures BodyAt(text, open, close, s, e) <==>
            s < |text| && s == IndexOf(text, open) && ClosesAt(text, open, close, s + 1, e)
  {
    if BodyAt(text, open, close, s, e) {
      BodyThenCloses(text, open, close, s, e);
    }
    if s < |text| && s == IndexOf(text, open) && ClosesAt(text, open, close, s + 1, e) {
      ClosesThenBody(text, open, close, s, e);
    }
  }

  /** The first bracket is closed in one place at most. */
  lemma BodyIsUnique(text: string, open: char, close: char, s: nat, e: nat, s': nat, e': nat)
    requires open != close
    requires BodyAt(text, open, close, s, e) && BodyAt(text, open, close, s', e')
    ensures s == s' && e == e'
  {
    BodyCloses(text, open, close, s, e);
    BodyCloses(text, open, close, s', e');
  }

  ghost predicate HasBody(text: string, open: char, close: char) {
    exists s: nat, e: nat :: BodyAt(text, open, close, s, e)
  }

  ghost predicate IsBody(text: string, open: char, close: char, body: string) {
    exists s: nat, e: nat :: BodyAt(text, open, close, s, e) && body == text[s + 1..e]
  }

  lemma NoBody(text: string, open: char, close: char, from: nat)
    requires open != close && from == IndexOf(text, open) + 1
    requires forall k :: from <= k <= |text| ==> DepthAt(text, open, close, from, k) >= 0
    ensures !HasBody(text, open, close)
  {
    forall s: nat, e: nat
      ensures !BodyAt(text, open, close, s, e)
    {
      BodyCloses(text, open, close, s, e);
    }
  }

  /** The text between the first `open` and its closing bracket; `None` exactly when there is no such text. */
  method ExtractBetween(text: string, open: char, close: char) returns (r: Option<string>)
    requires open != close
    ensures r.Some? ==> IsBody(text, open, close, r.value)
    ensures r.None? <==> !HasBody(text, open, close)
  {
    var start := IndexOf(text, open);
    if start == |text| {
      NoBody(text, open, close, start + 1);
      return None;
    }
    var count := 1;
    var end := start + 1;
    ghost var from := start + 1;
    while end < |text| && count > 0
      invariant from <= end <= |text| && 0 <= count
      invariant forall k :: from <= k <= end ==> DepthAt(text, open, close, from, k) >= 0
      invariant count > 0 ==> count == 1 + DepthAt(text, open, close, from, end)
      invariant count == 0 ==> end < |text| && DepthAt(text, open, close, from, end + 1) < 0
      decreases |text| - end, count
    {
      DepthStep(text, open, close, from, end);
      if text[end] == open {
        count := count + 1;
      } else if text[end] == close {
        count := count - 1;
      }
      if count > 0 {
        end := end + 1;
      }
    }
    if count == 0 {
      ClosedBody(text, open, close, start, end);
      r := Some(text[start + 1..end]);
    } else {
      NoBody(text, open, close, start + 1);
      r := None;
    }
  }

  lemma ClosedBody(text: string, open: char, close: char, start: nat, end: nat)
    requires open != close && start < |text| && start == IndexOf(text, open)
    requires ClosesAt(text, open, close, start + 1, end)
    ensures IsBody(text, open, close, text[start + 1..end]) && HasBody(text, open, close)
  {
    BodyCloses(text, open, close, start, end);
  }

  method ExtractBetweenParentheses(text: string) returns (r: Option<string>)
    ensures r.Some? ==> IsBody(text, '(', ')', r.value)
    ensures r.None? <==> !HasBody(text, '(', ')')
  {
    r := ExtractBetween(text, '(', ')');
  }

  method ExtractBetweenBraces(text: string) returns (r: Option<string>)
    ensures r.Some? ==> IsBody(text, '{', '}', r.value)
    ensures r.None? <==> !HasBody(text, '{', '}')
  {
    r := ExtractBetween(text, '{', '}');
  }

  // ----- Fields -----

  datatype Visibility = Public | Private

  datatype Field = Field(name: string, typeName: string, visibility: Visibility, line: int)

  datatype ParseError = MissingBraces | MissingParentheses

  /** The parts of `s` between all occurrences of `sep`. */
  function SplitOn(s: string, sep: char): (parts: seq<string>)
    ensures parts != []
  {
    var i := IndexOf(s, sep);
    if i == |s| then [s] else [s[..i]] + SplitOn(s[i + 1..], sep)
  }

  /** A trimmed field text as a field: everything before the first colon is the name, everything after it the type. */
  function FieldAt(field: string, line: int): Option<Field> {
    var public := "pub " <= field;
    var remaining := if public then field[4..] else field;
    var i := IndexOf(remaining, ':');
    if i == |remaining| then None
    else Some(Field(Trim(remaining[..i]), Trim(remaining[i + 1..]), if public then Public else Private, line))
  }

  lemma {:induction false} JoinSplitOn(s: string, sep: char)
    ensures Join(SplitOn(s, sep), [sep]) == s
    decreases |s|
  {
    var i := IndexOf(s, sep);
    if i < |s| {
      JoinSplitOn(s[i + 1..], sep);
      FirstIndex(s, sep, i);
      assert s[..i] + [sep] + s[i + 1..] == s;
    }
  }

  method ParseField(text: string, line: int) returns (r: Option<Field>)
    ensures r == FieldAt(Trim(text), line)
  {
    var field := Trim(text);
    if field == "" {
      return None;
    }
    var visibility, remaining := Private, field;
    if "pub " <= field {
      visibility, remaining := Public, field[4..];
    }
    var parts := SplitOn(remaining, ':');
    if |parts| < 2 {
      return None;
    }
    JoinSplitOn(remaining[IndexOf(remaining, ':') + 1..], ':');
    r := Some(Field(Trim(parts[0]), Trim(Join(parts[1..], ":")), visibility, line));
  }

  /** The present values, in order. */
  function Somes(options: seq<Option<Field>>): seq<Field> {
    if options == [] then []
    else
      var n := |options| - 1;
      Somes(options[..n]) + (if options[n].Some? then [options[n].value] else [])
  }

  /** What the parts parse to, a part's line being its distance from the base line. */
  function Options(parts: seq<string>, line: int): (options: seq<Option<Field>>)
    ensures |options| == |parts|
  {
    seq(|parts|, i requires 0 <= i < |parts| => FieldAt(Trim(parts[i]), line + i))
  }

  function FieldsOf(parts: seq<string>, line: int): seq<Field> {
    Somes(Options(parts, line))
  }

  method ParseStructFields(lines: seq<string>, baseLine: int) returns (r: Result<seq<Field>, ParseError>)
    ensures r.Failure? <==> !HasBody(Join(lines, " "), '{', '}')
    ensures r.Success? ==> exists body ::
              IsBody(Join(lines, " "), '{', '}', body) && r.value == FieldsOf(Split(body, ','), baseLine)
  {
    var content := ExtractBetweenBraces(Join(lines, " "));
    if content.None? {
      return Failure(MissingBraces);
    }
    var parts := SplitPreservingParentheses(content.value, ',');
    var fields := ParseParts(parts, baseLine);
    r := Success(fields);
  }

  method ParseParts(parts: seq<string>, baseLine: int) returns (fields: seq<Field>)
    ensures fields == FieldsOf(parts, baseLine)
  {
    ghost var options := Options(parts, baseLine);
    fields := [];
    for index := 0 to |parts|
      invariant fields == Somes(options[..index])
    {
      assert options[..index + 1][..index] == options[..index];
      var field := ParsePart(parts, index, baseLine);
      if field.Some? {
        fields := fields + [field.value];
      }
    }
    assert options[..|parts|] == options;
  }

  method ParsePart(parts: seq<string>, index: nat, baseLine: int) returns (field: Option<Field>)
    requires index < |parts|
    ensures field == Options(parts, baseLine)[index]
  {
    var part := Trim(parts[index]);
    TrimTwice(parts[index]);
    if part == "" {
      return None;
    }
    field := ParseField(part, baseLine + index);
  }

  // ----- Rendered structs parse back -----

  function RenderField(f: Field): string {
    var rest := f.name + ": " + f.typeName;
    if f.visibility.Public? then "pub " + rest else rest
  }

  function FieldLines(fields: seq<Field>): seq<string> {
    if fields == [] then ["}"] else [RenderField(fields[0]) + ","] + FieldLines(fields[1..])
  }

  /** A struct definition with one field per line. */
  function RenderStruct(header: string, fields: seq<Field>): seq<string> {
    [header + " {"] + FieldLines(fields)
  }

  predicate Unbracketed(s: string) {
    forall c :: c in s ==> !IsBracket(c)
  }

  predicate Plain(s: string) {
    Unbracketed(s) && ',' !in s
  }

  /** A field whose name is an identifier and whose type keeps its brackets and commas to itself. */
  ghost predicate Renderable(f: Field) {
    && Trimmed(f.name) && Plain(f.name) && ':' !in f.name
    && (f.visibility.Private? ==> !("pub " <= f.name))
    && Trimmed(f.typeName)
    && Level(f.typeName) && NoSplitIn(LEVEL, f.typeName, ',') && Balanced(f.typeName, '{', '}')
  }

  /** The pieces the body is split into: the fields after a blank, and the blank before the closing brace. */
  function BodyPieces(fields: seq<Field>): (ps: seq<string>)
    ensures |ps| == |fields| + 1
  {
    if fields == [] then [" "] else [" " + RenderField(fields[0])] + BodyPieces(fields[1..])
  }

  function BodyText(fields: seq<Field>): string {
    Join(BodyPieces(fields), [','])
  }

  lemma {:induction false} LinesMakeBody(fields: seq<Field>)
    ensures " " + Join(FieldLines(fields), " ") == BodyText(fields) + "}"
    decreases |fields|
  {
    if fields == [] {
    } else {
      LinesMakeBody(fields[1..]);
      var r, rest := RenderField(fields[0]), Join(FieldLines(fields[1..]), " ");
      assert BodyPieces(fields)[1..] == BodyPieces(fields[1..]);
      LineEnds(r, rest, BodyText(fields[1..]));
    }
  }

  lemma LineEnds(r: string, rest: string, body: string)
    requires " " + rest == body + "}"
    ensures " " + (r + "," + " " + rest) == " " + r + [','] + body + "}"
  {
    assert " " + (r + "," + " " + rest) == " " + r + "," + (" " + rest);
  }

  lemma BalancedConcat(a: string, b: string, open: char, close: char)
    requires Balanced(a, open, close) && Balanced(b, open, close)
    ensures Balanced(a + b, open, close)
  {
    NetConcat(a, b, open, close);
    forall k | 0 <= k <= |a + b|
      ensures Net((a + b)[..k], open, close) >= 0
    {
      if k <= |a| {
        assert (a + b)[..k] == a[..k];
      } else {
        assert (a + b)[..k] == a + b[..k - |a|];
        NetConcat(a, b[..k - |a|], open, close);
      }
    }
  }

  lemma {:induction false} UnbracketedNet(s: string, open: char, close: char)
    requires Unbracketed(s) && IsBracket(open) && IsBracket(close)
    ensures Net(s, open, close) == 0
  {
    if s == "" {
    } else {
      UnbracketedNet(s[..|s| - 1], open, close);
      assert s[|s| - 1] in s;
    }
  }

  lemma UnbracketedIsBalanced(s: string, open: char, close: char)
    requires Unbracketed(s) && IsBracket(open) && IsBracket(close)
    ensures Balanced(s, open, close)
  {
    forall k | 0 <= k <= |s|
      ensures Net(s[..k], open, close) == 0
    {
      UnbracketedNet(s[..k], open, close);
    }
    UnbracketedNet(s, open, close);
  }

  lemma {:induction false} PlainStays(d: Depths, s: string)
    requires Plain(s)
    ensures After(d, s) == d && NoSplitIn(d, s, ',')
    decreases |s|
  {
    if s == "" {
    } else {
      assert s[0] in s;
      PlainStays(d, s[1..]);
    }
  }

  function Prefix(f: Field): string {
    if f.visibility.Public? then "pub " + (f.name + ": ") else f.name + ": "
  }

  lemma PlainConcat(a: string, b: string)
    requires Plain(a) && Plain(b)
    ensures Plain(a + b)
  {
  }

  lemma TrimmedConcat(a: string, b: string)
    requires a != "" && !IsSpace(a[0]) && Trimmed(b)
    ensures Trimmed(a + b)
  {
    assert (a + b)[0] == a[0] && (a + b)[|a + b| - 1] == b[|b| - 1];
  }

  lemma PrefixIsPlain(f: Field)
    requires Renderable(f)
    ensures Plain(" " + Prefix(f))
  {
    PlainConcat(f.name, ": ");
    if f.visibility.Public? {
      PlainConcat("pub ", f.name + ": ");
    }
    PlainConcat(" ", Prefix(f));
  }

  lemma RenderingStarts(f: Field)
    ensures RenderField(f) == Prefix(f) + f.typeName
  {
    var rest := f.name + ": ";
    assert f.name + ": " + f.typeName == rest + f.typeName;
    assert "pub " + (rest + f.typeName) == "pub " + rest + f.typeName;
  }

  lemma RenderingIsTrimmed(f: Field)
    requires Renderable(f)
    ensures Trimmed(RenderField(f))
  {
    RenderingStarts(f);
    assert Prefix(f)[0] == if f.visibility.Public? then 'p' else f.name[0];
    TrimmedConcat(Prefix(f), f.typeName);
  }

  lemma AfterBlank(prefix: string, text: string)
    ensures " " + (prefix + text) == " " + prefix + text
  {
  }

  lemma PieceOfField(f: Field)
    requires Renderable(f)
    ensures Level(" " + RenderField(f)) && NoSplitIn(LEVEL, " " + RenderField(f), ',')
    ensures Trim(" " + RenderField(f)) == RenderField(f)
    ensures Balanced(" " + RenderField(f), '{', '}')
  {
    PrefixIsPlain(f);
    RenderingStarts(f);
    AfterBlank(Prefix(f), f.typeName);
    RenderingIsTrimmed(f);
    TrimLeadingBlank(RenderField(f));
    PlainThen(" " + Prefix(f), f.typeName);
  }

  lemma PlainThen(a: string, b: string)
    requires Plain(a) && Level(b) && NoSplitIn(LEVEL, b, ',') && Balanced(b, '{', '}')
    ensures Level(a + b) && NoSplitIn(LEVEL, a + b, ',') && Balanced(a + b, '{', '}')
  {
    PlainStays(LEVEL, a);
    AfterConcat(LEVEL, a, b);
    NoSplitConcat(LEVEL, a, b, ',');
    UnbracketedIsBalanced(a, '{', '}');
    BalancedConcat(a, b, '{', '}');
  }

  lemma {:induction false} BodyBalanced(fields: seq<Field>)
    requires forall i :: 0 <= i < |fields| ==> Renderable(fields[i])
    ensures Balanced(BodyText(fields), '{', '}')
    decreases |fields|
  {
    if fields == [] {
      UnbracketedIsBalanced(" ", '{', '}');
    } else {
      PieceOfField(fields[0]);
      BodyBalanced(fields[1..]);
      assert BodyPieces(fields)[1..] == BodyPieces(fields[1..]);
      assert Net([','], '{', '}') == 0 && Balanced([','], '{', '}');
      BalancedConcat(" " + RenderField(fields[0]), [','], '{', '}');
      BalancedConcat(" " + RenderField(fields[0]) + [','], BodyText(fields[1..]), '{', '}');
    }
  }

  lemma RenderedText(header: string, fields: seq<Field>)
    ensures Join(RenderStruct(header, fields), " ") == header + " {" + (BodyText(fields) + "}")
  {
    var lines := FieldLines(fields);
    assert RenderStruct(header, fields)[1..] == lines;
    LinesMakeBody(fields);
    assert header + " {" + " " + Join(lines, " ") == header + " {" + (" " + Join(lines, " "));
  }

  lemma BodyBetween(header: string, body: string)
    requires '{' !in header && Balanced(body, '{', '}')
    ensures IsBody(header + " {" + (body + "}"), '{', '}', body)
  {
    var text := header + " {" + (body + "}");
    var s, e := |header| + 1, |text| - 1;
    assert text[..s] == header + " ";
    assert text[s + 1..e] == body;
    assert BodyAt(text, '{', '}', s, e);
  }

  /** The body between the braces of a rendered struct. */
  lemma RenderedBody(header: string, fields: seq<Field>)
    requires '{' !in header && forall i :: 0 <= i < |fields| ==> Renderable(fields[i])
    ensures IsBody(Join(RenderStruct(header, fields), " "), '{', '}', BodyText(fields))
  {
    RenderedText(header, fields);
    BodyBalanced(fields);
    BodyBetween(header, BodyText(fields));
  }

  lemma SplitRemaining(name: string, typeName: string)
    requires ':' !in name && Trimmed(name) && Trimmed(typeName)
    ensures var text := name + ": " + typeName;
            var i := IndexOf(text, ':');
            i < |text| && Trim(text[..i]) == name && Trim(text[i + 1..]) == typeName
  {
    var text := name + ": " + typeName;
    assert text[..|name|] == name && text[|name| + 1..] == " " + typeName;
    FirstIndex(text, ':', |name|);
    TrimLeadingBlank(name);
    TrimLeadingBlank(typeName);
  }

  /** A field's rendering parses back, colons inside its type included. */
  lemma ParseRendered(f: Field, line: int)
    requires Renderable(f)
    ensures FieldAt(RenderField(f), line) == Some(f.(line := line))
  {
    SplitRemaining(f.name, f.typeName);
    if f.visibility.Public? {
      PublicRemaining(f.name + ": " + f.typeName);
    } else {
      NotPublic(f);
    }
  }

  lemma PublicRemaining(rest: string)
    ensures "pub " <= "pub " + rest && ("pub " + rest)[4..] == rest
  {
  }

  lemma NotPublic(f: Field)
    requires f.visibility.Private? && Renderable(f)
    ensures !("pub " <= f.name + ": " + f.typeName)
  {
    var text := f.name + ": " + f.typeName;
    if |f.name| >= 4 {
      assert text[0] == f.name[0] && text[1] == f.name[1] && text[2] == f.name[2] && text[3] == f.name[3];
    } else {
      assert text[|f.name|] == ':';
    }
  }

  function Numbered(fields: seq<Field>, line: int): (r: seq<Field>)
    ensures |r| == |fields|
  {
    seq(|fields|, i requires 0 <= i < |fields| => fields[i].(line := line + i))
  }

  function Rendered(fields: seq<Field>): (r: seq<string>)
    ensures |r| == |fields|
  {
    seq(|fields|, i requires 0 <= i < |fields| => RenderField(fields[i]))
  }

  lemma {:induction false} SomesOfAll(options: seq<Option<Field>>, fields: seq<Field>)
    requires |options| == |fields| && forall i :: 0 <= i < |fields| ==> options[i] == Some(fields[i])
    ensures Somes(options) == fields
  {
    if fields == [] {
    } else {
      var n := |fields| - 1;
      SomesOfAll(options[..n], fields[..n]);
      assert fields == fields[..n] + [fields[n]];
    }
  }

  lemma TrimmedRendering(f: Field, line: int)
    requires Renderable(f)
    ensures FieldAt(Trim(RenderField(f)), line) == Some(f.(line := line))
  {
    PrefixIsPlain(f);
    TrimLeadingBlank(RenderField(f));
    ParseRendered(f, line);
  }

  lemma PartAt(fields: seq<Field>, line: int, i: nat)
    requires i < |fields|
    ensures Options(Rendered(fields), line)[i] == FieldAt(Trim(RenderField(fields[i])), line + i)
    ensures Numbered(fields, line)[i] == fields[i].(line := line + i)
  {
    assert Rendered(fields)[i] == RenderField(fields[i]);
  }

  lemma OptionOfRendered(fields: seq<Field>, line: int, i: nat)
    requires i < |fields| && Renderable(fields[i])
    ensures Options(Rendered(fields), line)[i] == Some(Numbered(fields, line)[i])
  {
    PartAt(fields, line, i);
    TrimmedRendering(fields[i], line + i);
  }

  lemma FieldsOfRendered(fields: seq<Field>, line: int)
    requires forall i :: 0 <= i < |fields| ==> Renderable(fields[i])
    ensures FieldsOf(Rendered(fields), line) == Numbered(fields, line)
  {
    var options, numbered := Options(Rendered(fields), line), Numbered(fields, line);
    forall i | 0 <= i < |numbered|
      ensures options[i] == Some(numbered[i])
    {
      OptionOfRendered(fields, line, i);
    }
    SomesOfAll(options, numbered);
  }

  lemma BlankPiece()
    ensures PiecesFor(BodyPieces([]), Rendered([]), ',')
  {
    PlainStays(LEVEL, " ");
    assert TrimStart(" ") == "";
  }

  lemma RenderedCons(fields: seq<Field>)
    requires fields != []
    ensures Rendered(fields) == [RenderField(fields[0])] + Rendered(fields[1..])
  {
  }

  lemma {:induction false} BodyPiecesSplit(fields: seq<Field>)
    requires forall i :: 0 <= i < |fields| ==> Renderable(fields[i])
    ensures PiecesFor(BodyPieces(fields), Rendered(fields), ',')
    decreases |fields|
  {
    if fields == [] {
      BlankPiece();
    } else {
      var f, rest := fields[0], fields[1..];
      PieceOfField(f);
      BodyPiecesSplit(rest);
      PiecesForCons(" " + RenderField(f), RenderField(f), BodyPieces(rest), Rendered(rest), ',');
      RenderedCons(fields);
    }
  }

  /** Parsing a rendered struct gives its fields back, numbered from the base line. */
  method ParseRenderedStruct(header: string, fields: seq<Field>, baseLine: int) returns (r: Result<seq<Field>, ParseError>)
    requires '{' !in header && forall i :: 0 <= i < |fields| ==> Renderable(fields[i])
    ensures r == Success(Numbered(fields, baseLine))
  {
    r := ParseStructFields(RenderStruct(header, fields), baseLine);
    RenderedBody(header, fields);
    BodyPiecesSplit(fields);
    SplitJoined(BodyPieces(fields), Rendered(fields), ',');
    FieldsOfRendered(fields, baseLine);
    BodiesAgree(Join(RenderStruct(header, fields), " "), '{', '}');
  }

  lemma BodiesAgree(text: string, open: char, close: char)
    requires open != close
    ensures forall a, b :: IsBody(text, open, close, a) && IsBody(text, open, close, b) ==> a == b
    ensures forall a :: IsBody(text, open, close, a) ==> HasBody(text, open, close)
  {
    forall a, b | IsBody(text, open, close, a) && IsBody(text, open, close, b)
      ensures a == b
    {
      var s: nat, e: nat :| BodyAt(text, open, close, s, e) && a == text[s + 1..e];
      var s': nat, e': nat :| BodyAt(text, open, close, s', e') && b == text[s' + 1..e'];
      BodyIsUnique(text, open, close, s, e, s', e');
    }
  }

  // ----- What a field text means -----

  lemma FirstColon(name: string, rest: string)
    requires ':' !in name
    ensures IndexOf(name + ":" + rest, ':') == |name|
  {
    var text := name + ":" + rest;
    assert text[..|name|] == name && text[|name|] == ':';
    FirstIndex(text, ':', |name|);
  }

  /** A text with a colon is a field: the name before the first one, the type after it; `pub ` in front makes it public. */
  lemma FieldMeaning(name: string, rest: string, line: int)
    requires ':' !in name
    ensures FieldAt("pub " + (name + ":" + rest), line) == Some(Field(Trim(name), Trim(rest), Public, line))
    ensures !("pub " <= name + ":" + rest) ==> FieldAt(name + ":" + rest, line) == Some(Field(Trim(name), Trim(rest), Private, line))
  {
    var text := name + ":" + rest;
    FirstColon(name, rest);
    assert text[..|name|] == name && text[|name| + 1..] == rest;
    assert "pub " <= "pub " + text && ("pub " + text)[4..] == text;
  }

  /** A text without a colon is no field. */
  lemma NoColonNoField(field: string, line: int)
    ensures ':' !in field ==> FieldAt(field, line).None?
  {
    var remaining := if "pub " <= field then field[4..] else field;
    if ':' !in field {
      assert remaining[..|remaining|] == remaining;
      FirstIndex(remaining, ':', |remaining|);
    }
  }
}
