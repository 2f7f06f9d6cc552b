/** The parameters of a contract function, read out of its signature. */
module SorobanSignatures {
  import opened Wrappers
  import opened Text
  import opened Brackets
  import opened SorobanParser

  datatype Param = Param(name: string, typeName: string)

  function ParamAt(part: string): Option<Param> {
    var i := IndexOf(part, ':');
    if i == |part| then None else Some(Param(Trim(part[..i]), Trim(part[i + 1..])))
  }

  function ParamsOf(parts: seq<string>): seq<Param> {
    if parts == [] then []
    else
      var n := |parts| - 1;
      var param := ParamAt(Trim(parts[n]));
      if param.Some? then ParamsOf(parts[..n]) + [param.value] else ParamsOf(parts[..n])
  }

  method ParseParam(part: string) returns (param: Option<Param>)
    ensures param == ParamAt(part)
  {
    if part == "" {
      return None;
    }
    var parts := SplitOn(part, ':');
    if |parts| < 2 {
      return None;
    }
    JoinSplitOn(part[IndexOf(part, ':') + 1..], ':');
    param := Some(Param(Trim(parts[0]), Trim(Join(parts[1..], ":"))));
  }

  method ExtractParameters(signature: string) returns (r: Result<seq<Param>, ParseError>)
    ensures r.Failure? <==> !HasBody(signature, '(', ')')
    ensures r.Success? ==> exists body :: IsBody(signature, '(', ')', body) && r.value == ParamsOf(Split(body, ','))
  {
    var section := ExtractBetweenParentheses(signature);
    if section.None? {
      return Failure(MissingParentheses);
    }
    var paramParts := SplitPreservingParentheses(section.value, ',');
    var params := ParseParams(paramParts);
    r := Success(params);
  }

  method ParseParams(parts: seq<string>) returns (params: seq<Param>)
    ensures params == ParamsOf(parts)
  {
    params := [];
    for i := 0 to |parts|
      invariant params == ParamsOf(parts[..i])
    {
      assert parts[..i + 1][..i] == parts[..i];
      var param := ParseParam(Trim(parts[i]));
      if param.Some? {
        params := params + [param.value];
      }
    }
    assert parts[..|parts|] == parts;
  }

  function RenderParam(p: Param): string {
    p.name + ": " + p.typeName
  }

  function RenderParams(params: seq<Param>): (parts: seq<string>)
    ensures |parts| == |params|
  {
    seq(|params|, i requires 0 <= i < |params| => RenderParam(params[i]))
  }

  /** A parameter whose name is an identifier and whose type keeps its brackets and commas to itself. */
  ghost predicate RenderableParam(p: Param) {
    && Trimmed(p.name) && Plain(p.name) && ':' !in p.name
    && Trimmed(p.typeName)
    && Level(p.typeName) && NoSplitIn(LEVEL, p.typeName, ',') && Balanced(p.typeName, '(', ')')
  }

  lemma PrefixOfParam(p: Param, prefix: string)
    requires RenderableParam(p) && prefix == p.name + ": "
    ensures Level(prefix + p.typeName) && NoSplitIn(LEVEL, prefix + p.typeName, ',') && Balanced(prefix + p.typeName, '(', ')')
  {
    assert Plain(prefix);
    PlainStays(LEVEL, prefix);
    AfterConcat(LEVEL, prefix, p.typeName);
    NoSplitConcat(LEVEL, prefix, p.typeName, ',');
    UnbracketedIsBalanced(prefix, '(', ')');
    BalancedConcat(prefix, p.typeName, '(', ')');
  }

  lemma TrimmedParam(p: Param)
    requires Trimmed(p.name) && Trimmed(p.typeName)
    ensures Trimmed(RenderParam(p)) && Trim(RenderParam(p)) == RenderParam(p)
  {
    TrimLeadingBlank(RenderParam(p));
  }

  lemma PartOfParam(p: Param)
    requires RenderableParam(p)
    ensures Level(RenderParam(p)) && NoSplitIn(LEVEL, RenderParam(p), ',') && Balanced(RenderParam(p), '(', ')')
    ensures Trimmed(RenderParam(p)) && Trim(RenderParam(p)) == RenderParam(p)
    ensures ParamAt(RenderParam(p)) == Some(p)
  {
    PrefixOfParam(p, p.name + ": ");
    TrimmedParam(p);
    SplitRemaining(p.name, p.typeName);
  }

  lemma {:induction false} JoinBalanced(parts: seq<string>)
    requires forall i :: 0 <= i < |parts| ==> Balanced(parts[i], '(', ')')
    ensures Balanced(Join(parts, ","), '(', ')')
    decreases |parts|
  {
    if parts == [] {
      UnbracketedIsBalanced("", '(', ')');
    } else if |parts| > 1 {
      JoinBalanced(parts[1..]);
      UnbracketedIsBalanced(",", '(', ')');
      BalancedConcat(parts[0], ",", '(', ')');
      BalancedConcat(parts[0] + ",", Join(parts[1..], ","), '(', ')');
    }
  }

  lemma PartsOfParams(params: seq<Param>)
    requires forall i :: 0 <= i < |params| ==> RenderableParam(params[i])
    ensures Split(Join(RenderParams(params), ","), ',') == RenderParams(params)
    ensures Balanced(Join(RenderParams(params), ","), '(', ')')
  {
    forall i | 0 <= i < |params|
      ensures Trimmed(RenderParams(params)[i]) && Level(RenderParams(params)[i])
      ensures NoSplitIn(LEVEL, RenderParams(params)[i], ',') && Balanced(RenderParams(params)[i], '(', ')')
    {
      PartOfParam(params[i]);
    }
    SplitInvertsJoin(RenderParams(params), ',');
    JoinBalanced(RenderParams(params));
  }

  lemma {:induction false} ParamsOfParts(parts: seq<string>, params: seq<Param>)
    requires |parts| == |params| && forall i :: 0 <= i < |parts| ==> ParamAt(Trim(parts[i])) == Some(params[i])
    ensures ParamsOf(parts) == params
  {
    if parts == [] {
    } else {
      var n := |parts| - 1;
      ParamsOfParts(parts[..n], params[..n]);
      assert params == params[..n] + [params[n]];
    }
  }

  lemma ParamsOfRendered(params: seq<Param>)
    requires forall i :: 0 <= i < |params| ==> RenderableParam(params[i])
    ensures ParamsOf(RenderParams(params)) == params
  {
    forall i | 0 <= i < |params|
      ensures ParamAt(Trim(RenderParams(params)[i])) == Some(params[i])
    {
      PartOfParam(params[i]);
    }
    ParamsOfParts(RenderParams(params), params);
  }

  lemma BodyInSignature(header: string, body: string, rest: string)
    requires '(' !in header && Balanced(body, '(', ')')
    ensures IsBody(header + "(" + body + ")" + rest, '(', ')', body)
  {
    var text := header + "(" + body + ")" + rest;
    var s, e := |header|, |header| + 1 + |body|;
    assert text[..s] == header;
    assert text[s + 1..e] == body;
    assert BodyAt(text, '(', ')', s, e);
  }

  /** The parameters of a rendered signature parse back, whatever follows the closing parenthesis. */
  method ParseRenderedSignature(header: string, params: seq<Param>, rest: string) returns (r: Result<seq<Param>, ParseError>)
    requires '(' !in header && forall i :: 0 <= i < |params| ==> RenderableParam(params[i])
    ensures r == Success(params)
  {
    var body := Join(RenderParams(params), ",");
    var signature := header + "(" + body + ")" + rest;
    r := ExtractParameters(signature);
    PartsOfParams(params);
    BodyInSignature(header, body, rest);
    BodiesAgree(signature, '(', ')');
    ParamsOfRendered(params);
  }

  // ----- What a parameter text means -----

  /** A text is a parameter exactly if it has a colon; name and type stand before and after the first one. */
  lemma ParamMeaning(text: string)
    ensures ParamAt(text).None? <==> ':' !in text
    ensures forall name, rest :: ':' !in name && text == name + ":" + rest ==> ParamAt(text) == Some(Param(Trim(name), Trim(rest)))
  {
    var i := IndexOf(text, ':');
    FirstIndex(text, ':', i);
    assert i == |text| ==> text[..i] == text;
    forall name, rest | ':' !in name && text == name + ":" + rest
      ensures ParamAt(text) == Some(Param(Trim(name), Trim(rest)))
    {
      FirstColon(name, rest);
      assert text[..|name|] == name && text[|name| + 1..] == rest;
    }
  }
}
