/** Stage extraction (`clean_stage`): the free-text staging field is upper-cased
    and searched for the pattern `\b(IV|III|II|I)\b`. The regular-expression
    engine tries the start positions from left to right and, at each position,
    the four alternatives in the order IV, III, II, I; an alternative succeeds
    only if a word boundary follows it. The first success is the result. */
module Staging {
  import opened Wrappers
  import opened Text

  datatype Stage = I | II | III | IV

  /** The Roman numeral that names a stage, as the pattern spells it. */
  function Numeral(st: Stage): string {
    match st
    case I => "I"
    case II => "II"
    case III => "III"
    case IV => "IV"
  }

  /** Position of a stage among the alternatives `IV|III|II|I`. */
  function Rank(st: Stage): nat {
    match st
    case IV => 0
    case III => 1
    case II => 2
    case I => 3
  }

  /** `\b` at index `i`: exactly one of the characters on either side is a word character. */
  predicate IsBoundary(s: string, i: int)
    requires 0 <= i <= |s|
  {
    (i > 0 && IsWordChar(s[i - 1])) != (i < |s| && IsWordChar(s[i]))
  }

  /** The numeral of `st` occurs at `p` as a whole word: `\b` before it and after it. */
  predicate WholeWordAt(s: string, p: int, st: Stage) {
    var n := Numeral(st);
    0 <= p && p + |n| <= |s| && IsBoundary(s, p) && s[p..p + |n|] == n && IsBoundary(s, p + |n|)
  }

  /** No numeral is a whole word at any start position in `[lo, hi)`. */
  ghost predicate NoMatchBetween(s: string, lo: int, hi: int) {
    forall q, st :: lo <= q < hi ==> !WholeWordAt(s, q, st)
  }

  /** `st` matches at `q`, and no alternative tried before `st` does. */
  ghost predicate FirstAlternativeAt(s: string, q: int, st: Stage) {
    WholeWordAt(s, q, st) && forall st' :: Rank(st') < Rank(st) ==> !WholeWordAt(s, q, st')
  }

  /** The declarative meaning of the search: `st` is the first alternative that
      matches at `p`, and nothing matches further left. */
  ghost predicate LeftmostMatch(s: string, p: int, st: Stage) {
    FirstAlternativeAt(s, p, st) && NoMatchBetween(s, 0, p)
  }

  /** The pattern anchored at `p`: the alternatives in the order the engine tries them. */
  function MatchAt(s: string, p: nat): Option<Stage> {
    if WholeWordAt(s, p, IV) then Some(IV)
    else if WholeWordAt(s, p, III) then Some(III)
    else if WholeWordAt(s, p, II) then Some(II)
    else if WholeWordAt(s, p, I) then Some(I)
    else None
  }

  /** What the anchored match promises: the first alternative that is a whole
      word at `p`, or None when none is. */
  lemma MatchAtFindsFirstAlternative(s: string, p: nat)
    ensures MatchAt(s, p).Some? ==> FirstAlternativeAt(s, p, MatchAt(s, p).value)
    ensures MatchAt(s, p).None? ==> NoMatchBetween(s, p, p + 1)
  {
    var m := MatchAt(s, p);
    if m.Some? {
      forall st | Rank(st) < Rank(m.value) ensures !WholeWordAt(s, p, st) {
        match st
        case IV =>
        case III =>
        case II =>
        case I =>
      }
    } else {
      forall q, st | p <= q < p + 1 ensures !WholeWordAt(s, q, st) {
        match st
        case IV =>
        case III =>
        case II =>
        case I =>
      }
    }
  }

  /** A whole-word numeral needs room for at least one character, so none starts at `|s|` or later. */
  lemma NoMatchAtEnd(s: string, q: int, st: Stage)
    requires q >= |s|
    ensures !WholeWordAt(s, q, st)
  {
  }

  /** The engine's scan over the start positions `p`, `p + 1`, ..., `|s|`. */
  function SearchFrom(s: string, p: nat): (r: Option<(nat, Stage)>)
    requires p <= |s|
    ensures r.Some? ==> p <= r.value.0 && FirstAlternativeAt(s, r.value.0, r.value.1) && NoMatchBetween(s, p, r.value.0)
    ensures r.None? ==> NoMatchBetween(s, p, |s| + 1)
    decreases |s| - p
  {
    MatchAtFindsFirstAlternative(s, p);
    match MatchAt(s, p)
    case Some(st) => Some((p, st))
    case None =>
      if p == |s| then None
      else
        var r := SearchFrom(s, p + 1);
        assert r.Some? ==> NoMatchBetween(s, p, r.value.0) by {
          if r.Some? {
            forall q, st | p <= q < r.value.0 ensures !WholeWordAt(s, q, st) {
              if q > p { assert p + 1 <= q < r.value.0; }
            }
          }
        }
        assert r.None? ==> NoMatchBetween(s, p, |s| + 1) by {
          if r.None? {
            forall q, st | p <= q < |s| + 1 ensures !WholeWordAt(s, q, st) {
              if q > p { assert p + 1 <= q < |s| + 1; }
            }
          }
        }
        r
  }

  /** `re.search(r'\b(IV|III|II|I)\b', s)` followed by `group(1)`. */
  function Search(s: string): (r: Option<Stage>)
    ensures r.Some? ==> exists p :: LeftmostMatch(s, p, r.value)
    ensures r.None? ==> forall p, st :: !WholeWordAt(s, p, st)
  {
    match SearchFrom(s, 0)
    case Some(found) => assert LeftmostMatch(s, found.0, found.1); Some(found.1)
    case None =>
      assert forall p, st :: !WholeWordAt(s, p, st) by {
        forall p, st ensures !WholeWordAt(s, p, st) {
          if p > |s| { NoMatchAtEnd(s, p, st); }
        }
      }
      None
  }

  /** `clean_stage`: None for a missing value; otherwise the stage found in the upper-cased text. */
  function CleanStage(v: Option<string>): (r: Option<Stage>)
    ensures v.None? ==> r.None?
    ensures v.Some? && r.Some? ==> exists p :: LeftmostMatch(Upper(v.value), p, r.value)
    ensures v.Some? && r.None? ==> forall p, st :: !WholeWordAt(Upper(v.value), p, st)
  {
    match v
    case None => None
    case Some(s) => Search(Upper(s))
  }

  /** A numeral is spelled with the letters I and V only. */
  lemma NumeralLetters(st: Stage)
    ensures 1 <= |Numeral(st)| <= 3
    ensures forall k :: 0 <= k < |Numeral(st)| ==> Numeral(st)[k] == 'I' || Numeral(st)[k] == 'V'
  {
  }

  /** Both neighbours of a position strictly inside a whole-word numeral are
      letters of the numeral, so no word boundary is there. */
  lemma NoBoundaryInsideNumeral(s: string, p: int, st: Stage)
    requires WholeWordAt(s, p, st)
    ensures forall q :: p < q < p + |Numeral(st)| ==> !IsBoundary(s, q)
  {
    var n := Numeral(st);
    NumeralLetters(st);
    forall q | p < q < p + |n| ensures !IsBoundary(s, q) {
      assert s[q - 1] == s[p..p + |n|][q - 1 - p] == n[q - 1 - p];
      assert s[q] == s[p..p + |n|][q - p] == n[q - p];
    }
  }

  /** At one position at most one numeral is a whole word: a longer numeral
      continues with a word character exactly where a shorter one would need a
      boundary, so "III" and "IV" are never read as "I" or "II". */
  lemma WholeWordUnique(s: string, p: int, a: Stage, b: Stage)
    requires WholeWordAt(s, p, a) && WholeWordAt(s, p, b)
    ensures a == b
  {
    NoBoundaryInsideNumeral(s, p, a);
    NoBoundaryInsideNumeral(s, p, b);
    assert |Numeral(a)| == |Numeral(b)|;
    assert Numeral(a) == s[p..p + |Numeral(a)|] == Numeral(b);
  }

  /** The declarative description determines the result of the search. */
  lemma LeftmostMatchUnique(s: string, p: int, a: Stage, q: int, b: Stage)
    requires LeftmostMatch(s, p, a) && LeftmostMatch(s, q, b)
    ensures p == q && a == b
  {
    WholeWordUnique(s, p, a, if p == q then b else a);
  }

  /** Both directions of the reference definition: `clean_stage` returns `st`
      exactly when `st` is the leftmost whole-word numeral of the upper-cased text. */
  lemma CleanStageIsLeftmostMatch(s: string, st: Stage)
    ensures CleanStage(Some(s)) == Some(st) <==> exists p :: LeftmostMatch(Upper(s), p, st)
  {
    var u := Upper(s);
    if p :| LeftmostMatch(u, p, st) {
      var r := CleanStage(Some(s));
      assert WholeWordAt(u, p, st);
      var q :| LeftmostMatch(u, q, r.value);
      LeftmostMatchUnique(u, p, st, q, r.value);
    }
  }

  /** Upper-casing before the search moves no word boundary: `\b` sits at the
      same indices of the upper-cased text as of the original. */
  lemma UpperKeepsBoundaries(s: string, i: int)
    requires 0 <= i <= |s|
    ensures IsBoundary(Upper(s), i) == IsBoundary(s, i)
  {
    if i > 0 { CaseMappingKeepsClasses(s[i - 1]); }
    if i < |s| { CaseMappingKeepsClasses(s[i]); }
  }

  /** The numeral `clean_stage` finds stands between word boundaries of the
      text as given, not only of its upper-cased form. */
  lemma FoundNumeralIsWholeWordOfInput(s: string, st: Stage)
    requires CleanStage(Some(s)) == Some(st)
    ensures exists p :: WholeWordOfInput(s, p, st)
  {
    var p :| LeftmostMatch(Upper(s), p, st);
    UpperWholeWord(s, p, st);
  }

  /** At `p` the text as given has word boundaries around a span that upper-cases to the numeral of `st`. */
  ghost predicate WholeWordOfInput(s: string, p: int, st: Stage) {
    var n := Numeral(st);
    0 <= p && p + |n| <= |s| && IsBoundary(s, p) && IsBoundary(s, p + |n|) && Upper(s)[p..p + |n|] == n
  }

  /** A whole-word numeral of the upper-cased text is bounded by word boundaries of the text as given. */
  lemma UpperWholeWord(s: string, p: int, st: Stage)
    requires WholeWordAt(Upper(s), p, st)
    ensures WholeWordOfInput(s, p, st)
  {
    UpperKeepsBoundaries(s, p);
    UpperKeepsBoundaries(s, p + |Numeral(st)|);
  }

  /** Case does not matter: the text is upper-cased before the search. */
  lemma CleanStageIgnoresCase(s: string)
    ensures CleanStage(Some(Lower(s))) == CleanStage(Some(s))
    ensures CleanStage(Some(Upper(s))) == CleanStage(Some(s))
  {
    UpperAbsorbs(s);
  }

  /** A numeral standing alone is returned whole: "III" is stage III, never I or II. */
  lemma StandaloneNumeral(st: Stage)
    ensures CleanStage(Some(Numeral(st))) == Some(st)
  {
    var n := Numeral(st);
    assert Upper(n) == n;
    assert n[0..|n|] == n;
    assert LeftmostMatch(n, 0, st) by {
      forall st' | Rank(st') < Rank(st) ensures !WholeWordAt(n, 0, st') {
        if WholeWordAt(n, 0, st') { WholeWordUnique(n, 0, st, st'); }
      }
    }
    CleanStageIsLeftmostMatch(n, st);
  }

  /** A sub-stage letter after a hyphen is not part of the word: "II-A" is stage II. */
  lemma HyphenatedSubstage()
    ensures CleanStage(Some("II-A")) == Some(II)
  {
    var u := Upper("II-A");
    assert u == "II-A";
    assert u[0..2] == "II";
    assert LeftmostMatch(u, 0, II);
    CleanStageIsLeftmostMatch("II-A", II);
  }

  /** A sub-stage letter written against the numeral hides it: "IIIB" has no stage. */
  lemma AttachedSubstage()
    ensures CleanStage(Some("IIIB")) == None
  {
    var u := Upper("IIIB");
    assert u == "IIIB";
    forall p, st ensures !WholeWordAt(u, p, st) {
    }
  }

  /** Text without a whole-word numeral yields no stage: "indefinido" has none. */
  lemma NoNumeral()
    ensures CleanStage(Some("indefinido")) == None
  {
    var u := Upper("indefinido");
    assert u == "INDEFINIDO" by {
      forall k | 0 <= k < 10 ensures u[k] == "INDEFINIDO"[k] {
        assert u[k] == UpperChar("indefinido"[k]);
      }
    }
    NoNumeralInWord();
  }

  /** "INDEFINIDO" holds no whole-word numeral at any position. */
  lemma NoNumeralInWord()
    ensures forall p, st :: !WholeWordAt("INDEFINIDO", p, st)
  {
    var u := "INDEFINIDO";
    forall p, st ensures !WholeWordAt(u, p, st) {
      if 0 <= p < |u| {
        if p == 0 || p == 5 || p == 7 {
          // each "I" of the word is followed by a letter other than I and V
          assert IsWordChar(u[p + 1]) && u[p + 1] != 'I' && u[p + 1] != 'V';
          NoNumeralBeforeLetter(u, p, st);
        } else {
          assert p in {1, 2, 3, 4, 6, 8, 9};
          assert u[p] != 'I';
          NoNumeralAt(u, p, st);
        }
      } else if p >= |u| {
        NoMatchAtEnd(u, p, st);
      }
    }
  }

  /** A letter other than I and V right after position `q` ends no numeral and continues none. */
  lemma NoNumeralBeforeLetter(s: string, q: int, st: Stage)
    requires 0 <= q && q + 1 < |s| && IsWordChar(s[q + 1]) && s[q + 1] != 'I' && s[q + 1] != 'V'
    ensures !WholeWordAt(s, q, st)
  {
    var n := Numeral(st);
    NumeralLetters(st);
    if q + |n| <= |s| {
      assert s[q..q + |n|][0] == s[q];
      if |n| > 1 { assert s[q..q + |n|][1] == s[q + 1]; }
    }
  }

  /** A numeral after a word and before a dash is found: "Estadiamento IV - metástase" is stage IV. */
  lemma NumeralInSentence()
    ensures CleanStage(Some("Estadiamento IV - metástase")) == Some(IV)
  {
    var v := "Estadiamento IV - metástase";
    var u := Upper(v);
    assert u == "ESTADIAMENTO IV - METÁSTASE" by {
      forall k | 0 <= k < |v| ensures u[k] == "ESTADIAMENTO IV - METÁSTASE"[k] {
        assert u[k] == UpperChar(v[k]);
      }
    }
    NumeralAfterWord();
    CleanStageIsLeftmostMatch(v, IV);
  }

  /** Every numeral starts with "I", so a match needs an "I" just after a word boundary. */
  lemma NoNumeralAt(s: string, q: int, st: Stage)
    requires 0 <= q < |s| && (s[q] != 'I' || !IsBoundary(s, q))
    ensures !WholeWordAt(s, q, st)
  {
    var n := Numeral(st);
    if q + |n| <= |s| {
      assert s[q..q + |n|][0] == s[q];
    }
  }

  /** In "ESTADIAMENTO IV - METÁSTASE" the leftmost whole-word numeral is IV, at index 13. */
  lemma NumeralAfterWord()
    ensures LeftmostMatch("ESTADIAMENTO IV - METÁSTASE", 13, IV)
  {
    var u := "ESTADIAMENTO IV - METÁSTASE";
    assert u[13..15] == "IV";
    // the only "I" left of the numeral, at index 5, follows a letter
    forall q, st | 0 <= q < 13 ensures !WholeWordAt(u, q, st) {
      if q == 5 {
        assert IsWordChar(u[4]) && IsWordChar(u[5]);
      } else {
        assert q in {0, 1, 2, 3, 4, 6, 7, 8, 9, 10, 11, 12};
        assert u[q] != 'I';
      }
      NoNumeralAt(u, q, st);
    }
  }
}
