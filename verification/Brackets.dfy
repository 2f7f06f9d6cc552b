/** Bracket depths, splitting at top-level delimiters, and the text between two brackets. */
module Brackets {
  import opened Wrappers
  import opened Text

  // ----- Opening and closing brackets of one kind -----

  function Delta(ch: char, open: char, close: char): int {
    if ch == open then 1 else if ch == close then -1 else 0
  }

  /** Opening minus closing brackets. */
  function Net(s: string, open: char, close: char): int {
    if s == "" then 0 else Net(s[..|s| - 1], open, close) + Delta(s[|s| - 1], open, close)
  }

  // ----- Depths -----

  datatype Depths = Depths(paren: int, bracket: int, brace: int)

  const LEVEL := Depths(0, 0, 0)

  function Bump(d: Depths, c: char): Depths {
    match c
    case '(' => d.(paren := d.paren + 1)
    case ')' => d.(paren := d.paren - 1)
    case '[' => d.(bracket := d.bracket + 1)
    case ']' => d.(bracket := d.bracket - 1)
    case '{' => d.(brace := d.brace + 1)
    case '}' => d.(brace := d.brace - 1)
    case _ => d
  }

  /** The depths after reading `s` at depths `d`. */
  function After(d: Depths, s: string): Depths
    decreases |s|
  {
    if s == "" then d else After(Bump(d, s[0]), s[1..])
  }

  predicate IsBracket(c: char) {
    c in "()[]{}"
  }

  /** `s` read at level depths ends at level depths. */
  predicate Level(s: string) {
    After(LEVEL, s) == LEVEL
  }

  /** Reading `s` at depths `d`, no delimiter stands at level depths. */
  predicate NoSplitIn(d: Depths, s: string, delimiter: char)
    decreases |s|
  {
    s == "" ||
    (var d' := Bump(d, s[0]);
     !(s[0] == delimiter && d' == LEVEL) && NoSplitIn(d', s[1..], delimiter))
  }

  // ----- Splitting -----

  /** The untrimmed pieces of `text` read at depths `d`, the first one continuing `current`. */
  function Pieces(text: string, d: Depths, current: string, delimiter: char): (ps: seq<string>)
    ensures ps != []
    decreases |text|
  {
    if text == "" then [current]
    else
      var d' := Bump(d, text[0]);
      if text[0] == delimiter && d' == LEVEL then [current] + Pieces(text[1..], d', "", delimiter)
      else Pieces(text[1..], d', current + [text[0]], delimiter)
  }

  function TrimAll(ps: seq<string>): (r: seq<string>)
    ensures |r| == |ps|
  {
    seq(|ps|, i requires 0 <= i < |ps| => Trim(ps[i]))
  }

  /** The trimmed pieces, without a blank last one. */
  function Kept(ps: seq<string>): seq<string>
    requires ps != []
  {
    if Trim(ps[|ps| - 1]) == "" then TrimAll(ps[..|ps| - 1]) else TrimAll(ps)
  }

  function Split(text: string, delimiter: char): seq<string> {
    Kept(Pieces(text, LEVEL, "", delimiter))
  }

  lemma KeptCons(p: string, ps: seq<string>)
    requires ps != []
    ensures Kept([p] + ps) == [Trim(p)] + Kept(ps)
  {
    assert ([p] + ps)[..|ps|] == [p] + ps[..|ps| - 1];
    assert TrimAll([p] + ps[..|ps| - 1]) == [Trim(p)] + TrimAll(ps[..|ps| - 1]);
    assert TrimAll([p] + ps) == [Trim(p)] + TrimAll(ps);
  }

  method SplitPreservingParentheses(text: string, delimiter: char) returns (result: seq<string>)
    ensures result == Split(text, delimiter) == Kept(Segments(text, 0, 0, delimiter))
  {
    SplitCutsExactly(text, delimiter);
    result := [];
    var current := "";
    var depths := LEVEL;
    for i := 0 to |text|
      invariant result + Kept(Pieces(text[i..], depths, current, delimiter)) == Split(text, delimiter)
    {
      PiecesStep(text, i, depths, current, delimiter);
      depths := Bump(depths, text[i]);
      if text[i] == delimiter && depths == LEVEL {
        KeepPiece(result, current, Pieces(text[i + 1..], LEVEL, "", delimiter));
        result := result + [Trim(current)];
        current := "";
      } else {
        current := current + [text[i]];
      }
    }
    KeepLast(result, current);
    if Trim(current) != "" {
      result := result + [Trim(current)];
    }
  }

  lemma PiecesStep(text: string, i: nat, d: Depths, current: string, delimiter: char)
    requires i < |text|
    ensures var d' := Bump(d, text[i]);
            Pieces(text[i..], d, current, delimiter)
            == if text[i] == delimiter && d' == LEVEL then [current] + Pieces(text[i + 1..], d', "", delimiter)
               else Pieces(text[i + 1..], d', current + [text[i]], delimiter)
  {
    assert text[i..][0] == text[i] && text[i..][1..] == text[i + 1..];
  }

  lemma KeepPiece(result: seq<string>, piece: string, ps: seq<string>)
    requires ps != []
    ensures result + Kept([piece] + ps) == result + [Trim(piece)] + Kept(ps)
  {
    KeptCons(piece, ps);
  }

  lemma KeepLast(result: seq<string>, piece: string)
    ensures result + Kept([piece]) == if Trim(piece) == "" then result else result + [Trim(piece)]
  {
    assert [piece][..0] == [];
    assert TrimAll([piece]) == [Trim(piece)];
  }

  // ----- What splitting means -----

  /** All pieces but the last end at level depths, and no piece contains a delimiter at level depths. */
  predicate Splittable(ps: seq<string>, delimiter: char) {
    && (forall i :: 0 <= i < |ps| - 1 ==> Level(ps[i]))
    && (forall i :: 0 <= i < |ps| ==> NoSplitIn(LEVEL, ps[i], delimiter))
  }

  lemma {:induction false} AfterConcat(d: Depths, a: string, b: string)
    ensures After(d, a + b) == After(After(d, a), b)
    decreases |a|
  {
    if a == "" {
      assert a + b == b;
    } else {
      AfterConcat(Bump(d, a[0]), a[1..], b);
      assert (a + b)[0] == a[0] && (a + b)[1..] == a[1..] + b;
    }
  }

  lemma {:induction false} NoSplitConcat(d: Depths, a: string, b: string, delimiter: char)
    ensures NoSplitIn(d, a + b, delimiter) <==> NoSplitIn(d, a, delimiter) && NoSplitIn(After(d, a), b, delimiter)
    decreases |a|
  {
    if a == "" {
      assert a + b == b;
    } else {
      NoSplitConcat(Bump(d, a[0]), a[1..], b, delimiter);
      assert (a + b)[0] == a[0] && (a + b)[1..] == a[1..] + b;
    }
  }

  lemma {:induction false} PiecesAppend(p: string, rest: string, d: Depths, current: string, delimiter: char)
    requires NoSplitIn(d, p, delimiter)
    ensures Pieces(p + rest, d, current, delimiter) == Pieces(rest, After(d, p), current + p, delimiter)
    decreases |p|
  {
    if p == "" {
      assert p + rest == rest && current + p == current;
    } else {
      assert (p + rest)[0] == p[0] && (p + rest)[1..] == p[1..] + rest;
      PiecesAppend(p[1..], rest, Bump(d, p[0]), current + [p[0]], delimiter);
      assert current + [p[0]] + p[1..] == current + p;
    }
  }

  /** The join of splittable pieces comes apart into exactly these pieces. */
  lemma {:induction false} PiecesOfJoin(ps: seq<string>, delimiter: char)
    requires ps != [] && Splittable(ps, delimiter) && !IsBracket(delimiter)
    ensures Pieces(Join(ps, [delimiter]), LEVEL, "", delimiter) == ps
  {
    assert "" + ps[0] == ps[0];
    if |ps| == 1 {
      assert ps[0] + "" == ps[0];
      PiecesAppend(ps[0], "", LEVEL, "", delimiter);
    } else {
      var tail := Join(ps[1..], [delimiter]);
      var rest := [delimiter] + tail;
      assert Join(ps, [delimiter]) == ps[0] + rest;
      PiecesAppend(ps[0], rest, LEVEL, "", delimiter);
      assert rest[0] == delimiter && rest[1..] == tail;
      assert Bump(LEVEL, delimiter) == LEVEL;
      PiecesOfJoin(ps[1..], delimiter);
    }
  }

  lemma SplittableCons(p: string, ps: seq<string>, delimiter: char)
    requires ps != [] && Level(p) && NoSplitIn(LEVEL, p, delimiter) && Splittable(ps, delimiter)
    ensures Splittable([p] + ps, delimiter)
    ensures Join([p] + ps, [delimiter]) == p + ([delimiter] + Join(ps, [delimiter]))
  {
    assert ([p] + ps)[1..] == ps;
    assert p + [delimiter] + Join(ps, [delimiter]) == p + ([delimiter] + Join(ps, [delimiter]));
  }

  /** The pieces of any text are splittable, and joining them gives the text back. */
  lemma {:induction false} PiecesJoin(text: string, current: string, delimiter: char)
    requires NoSplitIn(LEVEL, current, delimiter) && !IsBracket(delimiter)
    ensures var ps := Pieces(text, After(LEVEL, current), current, delimiter);
            Splittable(ps, delimiter) && Join(ps, [delimiter]) == current + text
    decreases |text|
  {
    var d := After(LEVEL, current);
    var ps := Pieces(text, d, current, delimiter);
    if text != "" {
      var c := text[0];
      if c == delimiter && Bump(d, c) == LEVEL {
        PiecesJoin(text[1..], "", delimiter);
        assert "" + text[1..] == text[1..];
        SplittableCons(current, Pieces(text[1..], LEVEL, "", delimiter), delimiter);
        assert [delimiter] + text[1..] == text;
      } else {
        AfterConcat(LEVEL, current, [c]);
        NoSplitConcat(LEVEL, current, [c], delimiter);
        PiecesJoin(text[1..], current + [c], delimiter);
        assert current + [c] + text[1..] == current + text;
      }
    }
  }

  /** Splitting is determined by the join: a text has one list of splittable pieces, the one found. */
  lemma PiecesAreUnique(text: string, ps: seq<string>, delimiter: char)
    requires !IsBracket(delimiter)
    ensures ps == Pieces(text, LEVEL, "", delimiter) <==>
            ps != [] && Splittable(ps, delimiter) && Join(ps, [delimiter]) == text
  {
    PiecesJoin(text, "", delimiter);
    assert "" + text == text;
    if ps != [] && Splittable(ps, delimiter) && Join(ps, [delimiter]) == text {
      PiecesOfJoin(ps, delimiter);
    }
  }

  // ----- Splitting inverts joining, exactly when -----

  function TotalLength(ps: seq<string>): nat {
    if ps == [] then 0 else |ps[0]| + TotalLength(ps[1..])
  }

  lemma {:induction false} JoinLength(ps: seq<string>, delimiter: char)
    requires ps != []
    ensures |Join(ps, [delimiter])| == TotalLength(ps) + |ps| - 1
  {
    if |ps| > 1 {
      JoinLength(ps[1..], delimiter);
    }
  }

  lemma {:induction false} TotalLengthSnoc(ps: seq<string>, p: string)
    ensures TotalLength(ps + [p]) == TotalLength(ps) + |p|
  {
    if ps == [] {
      assert ps + [p] == [p];
    } else {
      TotalLengthSnoc(ps[1..], p);
      assert (ps + [p])[1..] == ps[1..] + [p];
    }
  }

  lemma {:induction false} TrimAllShrinks(ps: seq<string>)
    ensures TotalLength(TrimAll(ps)) <= TotalLength(ps)
    ensures TotalLength(TrimAll(ps)) == TotalLength(ps) ==> TrimAll(ps) == ps
  {
    if ps == [] {
    } else {
      TrimShrinks(ps[0]);
      TrimAllShrinks(ps[1..]);
      assert TrimAll(ps)[1..] == TrimAll(ps[1..]);
      if TotalLength(TrimAll(ps)) == TotalLength(ps) {
        assert TrimAll(ps) == [Trim(ps[0])] + TrimAll(ps[1..]);
        assert ps == [ps[0]] + ps[1..];
      }
    }
  }

  lemma TrimTrimmed(s: string)
    requires Trimmed(s)
    ensures Trim(s) == s
  {
    TrimLeadingBlank(s);
  }

  lemma KeptTrimmed(ps: seq<string>)
    requires ps != [] && forall i :: 0 <= i < |ps| ==> Trimmed(ps[i])
    ensures Kept(ps) == ps
  {
    forall i | 0 <= i < |ps|
      ensures Trim(ps[i]) == ps[i]
    {
      TrimTrimmed(ps[i]);
    }
    assert TrimAll(ps) == ps;
  }

  /** Pieces that trim to the given texts, before a blank last one. */
  ghost predicate PiecesFor(ps: seq<string>, rs: seq<string>, delimiter: char) {
    && |ps| == |rs| + 1 && Splittable(ps, delimiter)
    && Trim(ps[|rs|]) == ""
    && forall i :: 0 <= i < |rs| ==> Trim(ps[i]) == rs[i]
  }

  lemma PiecesForCons(p: string, r: string, ps: seq<string>, rs: seq<string>, delimiter: char)
    requires PiecesFor(ps, rs, delimiter)
    requires Level(p) && NoSplitIn(LEVEL, p, delimiter) && Trim(p) == r
    ensures PiecesFor([p] + ps, [r] + rs, delimiter)
  {
    SplittableCons(p, ps, delimiter);
  }

  lemma SplitJoined(ps: seq<string>, rs: seq<string>, delimiter: char)
    requires !IsBracket(delimiter) && PiecesFor(ps, rs, delimiter)
    ensures Split(Join(ps, [delimiter]), delimiter) == rs
  {
    PiecesOfJoin(ps, delimiter);
    assert TrimAll(ps[..|rs|]) == rs;
  }

  /** If the kept pieces are as long, with delimiters, as the text they came from, nothing was trimmed. */
  lemma KeptLoses(ps: seq<string>, parts: seq<string>, delimiter: char)
    requires ps != [] && parts != [] && Kept(ps) == parts
    requires Join(ps, [delimiter]) == Join(parts, [delimiter])
    ensures ps == parts
  {
    JoinLength(ps, delimiter);
    JoinLength(parts, delimiter);
    if Trim(ps[|ps| - 1]) == "" {
      LastIsLost(ps);
    } else {
      TrimAllShrinks(ps);
    }
  }

  lemma LastIsLost(ps: seq<string>)
    requires ps != []
    ensures TotalLength(TrimAll(ps[..|ps| - 1])) <= TotalLength(ps)
  {
    var front, last := ps[..|ps| - 1], ps[|ps| - 1];
    assert ps == front + [last];
    TotalLengthSnoc(front, last);
    TrimAllShrinks(front);
  }

  /**
   * For trimmed non-empty parts, splitting their join gives them back exactly when all but the last
   * have level depths and none contains a delimiter at level depths.
   */
  lemma SplitInvertsJoin(parts: seq<string>, delimiter: char)
    requires !IsBracket(delimiter)
    requires forall i :: 0 <= i < |parts| ==> Trimmed(parts[i])
    ensures Split(Join(parts, [delimiter]), delimiter) == parts <==> Splittable(parts, delimiter)
  {
    if parts == [] {
      assert TrimAll([]) == [];
    } else {
      var text := Join(parts, [delimiter]);
      var ps := Pieces(text, LEVEL, "", delimiter);
      PiecesAreUnique(text, ps, delimiter);
      PiecesAreUnique(text, parts, delimiter);
      KeptTrimmed(parts);
      if Kept(ps) == parts {
        KeptLoses(ps, parts, delimiter);
      }
    }
  }

  // ----- Where the cuts are -----

  lemma {:induction false} NetConcat(a: string, b: string, open: char, close: char)
    ensures Net(a + b, open, close) == Net(a, open, close) + Net(b, open, close)
    decreases |b|
  {
    if b == "" {
      assert a + b == a;
    } else {
      var n := |b| - 1;
      NetConcat(a, b[..n], open, close);
      assert (a + b)[..|a| + n] == a + b[..n];
    }
  }

  /** The depths are, for each kind of bracket, what was opened minus what was closed. */
  lemma {:induction false} DepthsAreNets(d: Depths, s: string)
    ensures After(d, s) == Depths(d.paren + Net(s, '(', ')'), d.bracket + Net(s, '[', ']'), d.brace + Net(s, '{', '}'))
    decreases |s|
  {
    if s == "" {
    } else {
      DepthsAreNets(Bump(d, s[0]), s[1..]);
      assert s == [s[0]] + s[1..] && [s[0]][..0] == "";
      NetConcat([s[0]], s[1..], '(', ')');
      NetConcat([s[0]], s[1..], '[', ']');
      NetConcat([s[0]], s[1..], '{', '}');
    }
  }

  /** No bracket of any kind is open, or closed too often, in the text. */
  predicate Closed(s: string) {
    Net(s, '(', ')') == 0 && Net(s, '[', ']') == 0 && Net(s, '{', '}') == 0
  }

  /** A delimiter stands at `k`, and the text up to and including it is closed. */
  predicate IsCut(text: string, k: nat, delimiter: char)
    requires k < |text|
  {
    text[k] == delimiter && Closed(text[..k + 1])
  }

  /** The text from `from` on, cut at each cut from `k` on. */
  function Segments(text: string, from: nat, k: nat, delimiter: char): (parts: seq<string>)
    requires from <= k <= |text|
    ensures parts != []
    decreases |text| - k
  {
    if k == |text| then [text[from..]]
    else if IsCut(text, k, delimiter) then [text[from..k]] + Segments(text, k + 1, k + 1, delimiter)
    else Segments(text, from, k + 1, delimiter)
  }

  lemma {:induction false} PiecesAreSegments(text: string, from: nat, k: nat, delimiter: char)
    requires from <= k <= |text|
    ensures Pieces(text[k..], After(LEVEL, text[..k]), text[from..k], delimiter) == Segments(text, from, k, delimiter)
    decreases |text| - k
  {
    if k == |text| {
      assert text[k..] == "" && text[from..k] == text[from..];
    } else {
      assert text[k..][0] == text[k] && text[k..][1..] == text[k + 1..];
      assert text[..k + 1] == text[..k] + [text[k]] && text[from..k + 1] == text[from..k] + [text[k]];
      AfterConcat(LEVEL, text[..k], [text[k]]);
      DepthsAreNets(LEVEL, text[..k + 1]);
      PiecesAreSegments(text, from, k + 1, delimiter);
      if IsCut(text, k, delimiter) {
        PiecesAreSegments(text, k + 1, k + 1, delimiter);
        assert text[k + 1..k + 1] == "";
      }
    }
  }

  /** Splitting cuts exactly at the delimiters with nothing open, trims the parts and drops a blank last one. */
  lemma SplitCutsExactly(text: string, delimiter: char)
    ensures Split(text, delimiter) == Kept(Segments(text, 0, 0, delimiter))
  {
    PiecesAreSegments(text, 0, 0, delimiter);
    assert text[0..] == text && text[..0] == "" && text[0..0] == "";
  }

  /** Angle brackets are not counted, so a comma between type arguments splits its type. */
  lemma AngleBracketsSplit()
    ensures !Splittable(["Map<K, V>", "u64"], ',')
    ensures Split(Join(["Map<K, V>", "u64"], [',']), ',') != ["Map<K, V>", "u64"]
  {
    var parts := ["Map<K, V>", "u64"];
    CommaInAngles();
    assert !NoSplitIn(LEVEL, parts[0], ',');
    SplitInvertsJoin(parts, ',');
  }

  lemma LevelStart()
    ensures After(LEVEL, "Map<K") == LEVEL
  {
  }

  lemma CommaInAngles()
    ensures !NoSplitIn(LEVEL, "Map<K, V>", ',')
  {
    assert "Map<K, V>" == "Map<K" + ", V>";
    NoSplitConcat(LEVEL, "Map<K", ", V>", ',');
    LevelStart();
    assert !NoSplitIn(LEVEL, ", V>", ',');
  }
}
