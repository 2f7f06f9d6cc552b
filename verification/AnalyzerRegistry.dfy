/** The analyzer registry: analyzers in registration order, and a list of analyzers per language. */
module AnalyzerRegistry {
  import opened Wrappers
  import opened Sequences

  datatype Analyzer = Analyzer(name: string, languages: seq<string>)

  datatype Error = AlreadyRegistered

  // ----- What the language lists should be -----

  function Times(languages: seq<string>, language: string): nat {
    if languages == [] then 0
    else if languages[0] == language then 1 + Times(languages[1..], language)
    else Times(languages[1..], language)
  }

  function Copies(a: Analyzer, n: nat): (s: seq<Analyzer>)
    ensures |s| == n && forall i :: 0 <= i < n ==> s[i] == a
  {
    seq(n, _ => a)
  }

  /** The registered analyzers supporting a language, in registration order, as often as they name it. */
  function ListFor(analyzers: seq<Analyzer>, language: string): seq<Analyzer> {
    if analyzers == [] then []
    else
      var n := |analyzers| - 1;
      ListFor(analyzers[..n], language) + Copies(analyzers[n], Times(analyzers[n].languages, language))
  }

  ghost predicate DistinctNames(analyzers: seq<Analyzer>) {
    forall i, j :: 0 <= i < j < |analyzers| ==> analyzers[i].name != analyzers[j].name
  }

  lemma ListForSnoc(analyzers: seq<Analyzer>, a: Analyzer, language: string)
    ensures ListFor(analyzers + [a], language) == ListFor(analyzers, language) + Copies(a, Times(a.languages, language))
  {
    assert (analyzers + [a])[..|analyzers|] == analyzers;
  }

  lemma {:induction false} ListForConcat(p: seq<Analyzer>, q: seq<Analyzer>, language: string)
    ensures ListFor(p + q, language) == ListFor(p, language) + ListFor(q, language)
    decreases |q|
  {
    if q == [] {
      assert p + q == p;
    } else {
      var n := |q| - 1;
      var front, last := q[..n], q[n];
      ListForConcat(p, front, language);
      assert q == front + [last];
      Associative(p, front, [last]);
      ListForSnoc(p + front, last, language);
      ListForSnoc(front, last, language);
      Associative(ListFor(p, language), ListFor(front, language), Copies(last, Times(last.languages, language)));
    }
  }

  lemma {:induction false} InListFor(analyzers: seq<Analyzer>, language: string, a: Analyzer)
    ensures a in ListFor(analyzers, language) <==> a in analyzers && language in a.languages
  {
    if analyzers == [] {
    } else {
      var n := |analyzers| - 1;
      InListFor(analyzers[..n], language, a);
      TimesPositive(analyzers[n].languages, language);
      assert analyzers == analyzers[..n] + [analyzers[n]];
      var copies := Copies(analyzers[n], Times(analyzers[n].languages, language));
      if language in analyzers[n].languages {
        assert copies[0] == analyzers[n];
      }
    }
  }

  lemma {:induction false} TimesPositive(languages: seq<string>, language: string)
    ensures Times(languages, language) > 0 <==> language in languages
  {
    if languages == [] {
    } else {
      TimesPositive(languages[1..], language);
    }
  }

  /** `list` without its first `a`. */
  function RemoveFirst(list: seq<Analyzer>, a: Analyzer): seq<Analyzer> {
    if list == [] then []
    else if list[0] == a then list[1..]
    else [list[0]] + RemoveFirst(list[1..], a)
  }

  lemma {:induction false} RemoveFirstAfter(p: seq<Analyzer>, a: Analyzer, rest: seq<Analyzer>)
    requires a !in p
    ensures RemoveFirst(p + ([a] + rest), a) == p + rest
  {
    var list := p + ([a] + rest);
    if p == [] {
      assert list == [a] + rest && list[1..] == rest && p + rest == rest;
    } else {
      RemoveFirstAfter(p[1..], a, rest);
      assert list[0] == p[0] && list[1..] == p[1..] + ([a] + rest);
      assert [p[0]] + (p[1..] + rest) == p + rest;
    }
  }

  // ----- Changing the language lists -----

  /** The lists while `a` is still to be listed for `languages`. */
  ghost predicate Pushing(m: map<string, seq<Analyzer>>, a: Analyzer, languages: seq<string>, all: seq<Analyzer>) {
    && (forall l :: Get(m, l) + Copies(a, Times(languages, l)) == ListFor(all, l))
    && (forall l :: l in m ==> m[l] != [])
  }

  function PushTo(m: map<string, seq<Analyzer>>, language: string, a: Analyzer): map<string, seq<Analyzer>> {
    m[language := Get(m, language) + [a]]
  }

  lemma PushStep(m: map<string, seq<Analyzer>>, a: Analyzer, languages: seq<string>, all: seq<Analyzer>)
    requires languages != [] && Pushing(m, a, languages, all)
    ensures Pushing(PushTo(m, languages[0], a), a, languages[1..], all)
  {
    var m' := PushTo(m, languages[0], a);
    forall l
      ensures Get(m', l) + Copies(a, Times(languages[1..], l)) == ListFor(all, l)
    {
      Pushed(Get(m, l), a, languages, l);
      assert Get(m', l) == if languages[0] == l then Get(m, l) + [a] else Get(m, l);
    }
    forall l | l in m'
      ensures m'[l] != []
    {
      if l == languages[0] {
        assert m'[l][|m'[l]| - 1] == a;
      }
    }
  }

  lemma Pushed(list: seq<Analyzer>, a: Analyzer, languages: seq<string>, l: string)
    requires languages != []
    ensures list + Copies(a, Times(languages, l))
         == (if languages[0] == l then list + [a] else list) + Copies(a, Times(languages[1..], l))
  {
    if languages[0] == l {
      assert Copies(a, Times(languages, l)) == [a] + Copies(a, Times(languages[1..], l));
    }
  }

  /** The lists while `a`, registered between `p` and `q`, is still listed for `languages`. */
  ghost predicate Pulling(m: map<string, seq<Analyzer>>, a: Analyzer, languages: seq<string>, p: seq<Analyzer>, q: seq<Analyzer>) {
    && (forall l :: Get(m, l) == ListFor(p, l) + (Copies(a, Times(languages, l)) + ListFor(q, l)))
    && (forall l :: l in m ==> m[l] != [])
  }

  function PullFrom(m: map<string, seq<Analyzer>>, language: string, a: Analyzer): map<string, seq<Analyzer>> {
    var list := RemoveFirst(Get(m, language), a);
    if list == [] then m - {language} else m[language := list]
  }

  lemma PullStep(m: map<string, seq<Analyzer>>, a: Analyzer, languages: seq<string>, p: seq<Analyzer>, q: seq<Analyzer>)
    requires languages != [] && a !in p && Pulling(m, a, languages, p, q)
    ensures Pulling(PullFrom(m, languages[0], a), a, languages[1..], p, q)
  {
    forall l
      ensures Get(PullFrom(m, languages[0], a), l) == ListFor(p, l) + (Copies(a, Times(languages[1..], l)) + ListFor(q, l))
    {
      InListFor(p, l, a);
      Pulled(ListFor(p, l), a, languages, ListFor(q, l), l);
    }
  }

  lemma Pulled(p: seq<Analyzer>, a: Analyzer, languages: seq<string>, q: seq<Analyzer>, l: string)
    requires languages != [] && a !in p
    ensures var list := p + (Copies(a, Times(languages, l)) + q);
            var next := p + (Copies(a, Times(languages[1..], l)) + q);
            if languages[0] == l then RemoveFirst(list, a) == next else list == next
  {
    if languages[0] == l {
      var rest := Copies(a, Times(languages[1..], l)) + q;
      assert Copies(a, Times(languages, l)) + q == [a] + rest;
      RemoveFirstAfter(p, a, rest);
    }
  }

  lemma StartPulling(m: map<string, seq<Analyzer>>, p: seq<Analyzer>, a: Analyzer, q: seq<Analyzer>)
    requires forall l :: Get(m, l) == ListFor(p + [a] + q, l)
    requires forall l :: l in m ==> m[l] != []
    ensures Pulling(m, a, a.languages, p, q)
  {
    forall l
      ensures Get(m, l) == ListFor(p, l) + (Copies(a, Times(a.languages, l)) + ListFor(q, l))
    {
      ListForConcat(p + [a], q, l);
      ListForSnoc(p, a, l);
      Associative(ListFor(p, l), Copies(a, Times(a.languages, l)), ListFor(q, l));
    }
  }

  lemma DonePulling(m: map<string, seq<Analyzer>>, p: seq<Analyzer>, a: Analyzer, q: seq<Analyzer>)
    requires Pulling(m, a, [], p, q)
    ensures forall l :: Get(m, l) == ListFor(p + q, l)
  {
    forall l
      ensures Get(m, l) == ListFor(p + q, l)
    {
      ListForConcat(p, q, l);
      assert Copies(a, 0) + ListFor(q, l) == ListFor(q, l);
    }
  }

  // ----- The registry -----

  class Registry {
    var analyzers: seq<Analyzer>
    var languageMap: map<string, seq<Analyzer>>

    /** Names are distinct, every language list is as it should be, and no list is empty. */
    ghost predicate Valid()
      reads this
    {
      && DistinctNames(analyzers)
      && (forall l :: Get(languageMap, l) == ListFor(analyzers, l))
      && (forall l :: l in languageMap ==> languageMap[l] != [])
    }

    constructor ()
      ensures Valid() && analyzers == []
    {
      analyzers, languageMap := [], map[];
    }

    predicate HasName(name: string)
      reads this
    {
      exists i :: 0 <= i < |analyzers| && analyzers[i].name == name
    }

    method Register(a: Analyzer) returns (r: Result<(), Error>)
      requires Valid()
      modifies this
      ensures Valid()
      ensures r.Failure? <==> old(HasName(a.name))
      ensures analyzers == if r.Success? then old(analyzers) + [a] else old(analyzers)
    {
      if HasName(a.name) {
        return Failure(AlreadyRegistered);
      }
      forall l
        ensures ListFor(analyzers + [a], l) == ListFor(analyzers, l) + Copies(a, Times(a.languages, l))
      {
        ListForSnoc(analyzers, a, l);
      }
      analyzers := analyzers + [a];
      for i := 0 to |a.languages|
        invariant analyzers == old(analyzers) + [a]
        invariant Pushing(languageMap, a, a.languages[i..], analyzers)
      {
        ghost var lists := languageMap;
        PushStep(lists, a, a.languages[i..], analyzers);
        assert a.languages[i..][1..] == a.languages[i + 1..];
        var language := a.languages[i];
        if language !in languageMap {
          languageMap := languageMap[language := []];
        }
        languageMap := languageMap[language := languageMap[language] + [a]];
        assert languageMap == PushTo(lists, language, a);
      }
      r := Success(());
    }

    /** Removes the analyzer of that name, if any, from the registry and from its language lists. */
    method Unregister(name: string)
      requires Valid()
      modifies this
      ensures Valid()
      ensures !old(HasName(name)) ==> analyzers == old(analyzers) && languageMap == old(languageMap)
      ensures old(HasName(name)) ==> exists k :: 0 <= k < |old(analyzers)| && old(analyzers)[k].name == name &&
                                      analyzers == old(analyzers)[..k] + old(analyzers)[k + 1..]
    {
      if !HasName(name) {
        return;
      }
      var k := Position(name);
      var a := analyzers[k];
      ghost var p, q := analyzers[..k], analyzers[k + 1..];
      assert analyzers == p + [a] + q;
      StartPulling(languageMap, p, a, q);
      analyzers := analyzers[..k] + analyzers[k + 1..];
      RemoveFromLists(a, p, q);
      DonePulling(languageMap, p, a, q);
    }

    method Position(name: string) returns (k: nat)
      requires HasName(name)
      ensures k < |analyzers| && analyzers[k].name == name
    {
      k := 0;
      while analyzers[k].name != name
        invariant 0 <= k < |analyzers|
        invariant forall j :: 0 <= j < k ==> analyzers[j].name != name
        decreases |analyzers| - k
      {
        k := k + 1;
      }
    }

    method RemoveFromLists(a: Analyzer, ghost p: seq<Analyzer>, ghost q: seq<Analyzer>)
      requires a !in p && Pulling(languageMap, a, a.languages, p, q)
      modifies this`languageMap
      ensures Pulling(languageMap, a, [], p, q)
    {
      assert a.languages[0..] == a.languages;
      for i := 0 to |a.languages|
        invariant Pulling(languageMap, a, a.languages[i..], p, q)
      {
        PullStep(languageMap, a, a.languages[i..], p, q);
        assert a.languages[i..][1..] == a.languages[i + 1..];
        var language := a.languages[i];
        var list := RemoveFirst(Get(languageMap, language), a);
        if list == [] {
          languageMap := languageMap - {language};
        } else {
          languageMap := languageMap[language := list];
        }
      }
      assert a.languages[|a.languages|..] == [];
    }

    method DisposeAll()
      modifies this
      ensures Valid() && analyzers == []
    {
      analyzers, languageMap := [], map[];
    }

    function AnalyzersForLanguage(language: string): (r: seq<Analyzer>)
      requires Valid()
      reads this
      ensures r == ListFor(analyzers, language)
    {
      Get(languageMap, language)
    }

    /** A language is supported exactly when some registered analyzer names it. */
    lemma SupportedLanguages(language: string)
      requires Valid()
      ensures language in languageMap <==> exists i :: 0 <= i < |analyzers| && language in analyzers[i].languages
      ensures language in languageMap <==> AnalyzersForLanguage(language) != []
    {
      if language in languageMap {
        var a := languageMap[language][0];
        assert a in ListFor(analyzers, language);
        InListFor(analyzers, language, a);
      }
      if i :| 0 <= i < |analyzers| && language in analyzers[i].languages {
        InListFor(analyzers, language, analyzers[i]);
        assert ListFor(analyzers, language) != [];
      }
    }
  }
}
