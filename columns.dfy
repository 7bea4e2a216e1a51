/** Column discovery and flag tokens. Column names are the trimmed header names;
    each semantic column is the first one, in header order, whose name passes a
    fixed test, and a column that is not found is simply absent. */
module Columns {
  import opened Wrappers
  import opened Text

  /** One raw cell of the table: its text, or None for an empty cell (NaN). */
  type Cell = Option<string>

  datatype Disease = Linfomas | MielomaMultiplo

  /** `df.columns.str.strip()` */
  function TrimNames(names: seq<string>): (r: seq<string>)
    ensures |r| == |names| && forall i :: 0 <= i < |names| ==> r[i] == Trim(names[i])
  {
    seq(|names|, i requires 0 <= i < |names| => Trim(names[i]))
  }

  /** The first index at or after `i` whose name passes `p`. */
  function FirstMatchFrom(names: seq<string>, p: string -> bool, i: nat): (r: Option<nat>)
    requires i <= |names|
    ensures r.Some? ==> i <= r.value < |names| && p(names[r.value])
    ensures r.Some? ==> forall j :: i <= j < r.value ==> !p(names[j])
    ensures r.None? ==> forall j :: i <= j < |names| ==> !p(names[j])
    decreases |names| - i
  {
    if i == |names| then None
    else if p(names[i]) then Some(i)
    else FirstMatchFrom(names, p, i + 1)
  }

  /** `[c for c in names if p(c)][0]`, or None when that list is empty. */
  function FirstMatch(names: seq<string>, p: string -> bool): (r: Option<nat>)
    ensures r.Some? ==> r.value < |names| && p(names[r.value])
    ensures r.Some? ==> forall j :: 0 <= j < r.value ==> !p(names[j])
    ensures r.None? <==> forall j :: 0 <= j < |names| ==> !p(names[j])
  {
    FirstMatchFrom(names, p, 0)
  }

  /** A name that is exactly `target` (the `'X' in df.columns` tests). */
  function IndexOf(names: seq<string>, target: string): (r: Option<nat>)
    ensures r.Some? ==> r.value < |names| && names[r.value] == target
    ensures r.None? <==> target !in names
  {
    FirstMatch(names, c => c == target)
  }

  const ConsultName: string := "Data Primeira Consulta"
  const AgeName: string := "Idade"
  const SexName: string := "GENERO"

  /** Death-date form: the name contains "Data" and, lower-cased, "óbito". */
  predicate IsDeathDateName(c: string) {
    Contains(c, "Data") && Contains(Lower(c), "óbito")
  }

  /** Death-flag form: the name contains "Óbito" but not "Data". */
  predicate IsDeathFlagName(c: string) {
    Contains(c, "Óbito") && !Contains(c, "Data")
  }

  /** Relapse flag: the name contains "Recidiva" and "(S) ou (N)". */
  predicate IsRelapseName(c: string) {
    Contains(c, "Recidiva") && Contains(c, "(S) ou (N)")
  }

  /** Staging text: the name contains "Estadiamento". */
  predicate IsStageName(c: string) {
    Contains(c, "Estadiamento")
  }

  /** The header spellings the tests are written for, and the date form kept
      out of the flag form. */
  lemma NameTestExamples()
    ensures IsDeathDateName("Data do Óbito") && !IsDeathFlagName("Data do Óbito")
    ensures IsDeathFlagName("Óbito (S/N)")
    ensures IsRelapseName("Recidiva (S) ou (N)")
    ensures IsStageName("Estadiamento Ann Arbor")
  {
    var d := "Data do Óbito";
    assert OccursAt(d, "Data", 0);
    assert Lower(d)[8..13] == "óbito";
    assert OccursAt(Lower(d), "óbito", 8);
    assert OccursAt("Óbito (S/N)", "Óbito", 0);
    MissingFirstChar("Óbito (S/N)", "Data");
    assert OccursAt("Recidiva (S) ou (N)", "Recidiva", 0);
    assert OccursAt("Recidiva (S) ou (N)", "(S) ou (N)", 9);
    assert OccursAt("Estadiamento Ann Arbor", "Estadiamento", 0);
  }

  /** Where the death information comes from. */
  datatype DeathSource = DateColumn(index: nat) | FlagColumn(index: nat) | NoDeathColumn

  /** The date form wins whenever any column has it; the flag form is the fallback. */
  function ResolveDeath(names: seq<string>): (d: DeathSource)
    ensures d.DateColumn? <==> exists i :: 0 <= i < |names| && IsDeathDateName(names[i])
    ensures d.DateColumn? ==>
              && d.index < |names| && IsDeathDateName(names[d.index])
              && forall j :: 0 <= j < d.index ==> !IsDeathDateName(names[j])
    ensures d.FlagColumn? ==>
              && d.index < |names| && IsDeathFlagName(names[d.index])
              && forall j :: 0 <= j < d.index ==> !IsDeathFlagName(names[j])
    ensures d.NoDeathColumn? <==> forall j :: 0 <= j < |names| ==> !IsDeathDateName(names[j]) && !IsDeathFlagName(names[j])
  {
    match FirstMatch(names, IsDeathDateName)
    case Some(i) => DateColumn(i)
    case None =>
      match FirstMatch(names, IsDeathFlagName)
      case Some(i) => FlagColumn(i)
      case None => NoDeathColumn
  }

  /** The columns one run of the report reads. */
  datatype Resolution = Resolution(
    consult: Option<nat>,
    age: Option<nat>,
    sex: Option<nat>,
    death: DeathSource,
    relapse: Option<nat>,
    stage: Option<nat>)

  /** Every index of a resolution points into a row of `width` cells. */
  predicate FitsWidth(res: Resolution, width: nat) {
    && (res.consult.Some? ==> res.consult.value < width)
    && (res.age.Some? ==> res.age.value < width)
    && (res.sex.Some? ==> res.sex.value < width)
    && (!res.death.NoDeathColumn? ==> res.death.index < width)
    && (res.relapse.Some? ==> res.relapse.value < width)
    && (res.stage.Some? ==> res.stage.value < width)
  }

  /** Staging is on for Linfomas when some column names the staging text. */
  predicate StagingOn(names: seq<string>, disease: Disease) {
    disease == Linfomas && exists i :: 0 <= i < |names| && IsStageName(names[i])
  }

  /** Column discovery over the trimmed names; staging is looked for only for Linfomas. */
  function Resolve(names: seq<string>, disease: Disease): (res: Resolution)
    ensures FitsWidth(res, |names|)
    ensures res.consult.Some? <==> ConsultName in names
    ensures res.age.Some? <==> AgeName in names
    ensures res.sex.Some? <==> SexName in names
    ensures res.death.DateColumn? <==> exists i :: 0 <= i < |names| && IsDeathDateName(names[i])
    ensures res.relapse.Some? <==> exists i :: 0 <= i < |names| && IsRelapseName(names[i])
    ensures res.stage.Some? <==> StagingOn(names, disease)
    ensures res.consult.Some? ==> names[res.consult.value] == ConsultName
    ensures res.age.Some? ==> names[res.age.value] == AgeName
    ensures res.sex.Some? ==> names[res.sex.value] == SexName
    ensures res.death == ResolveDeath(names)
    ensures res.relapse == FirstMatch(names, IsRelapseName)
    ensures disease == Linfomas ==> res.stage == FirstMatch(names, IsStageName)
  {
    Resolution(
      IndexOf(names, ConsultName),
      IndexOf(names, AgeName),
      IndexOf(names, SexName),
      ResolveDeath(names),
      FirstMatch(names, IsRelapseName),
      if disease == Linfomas then FirstMatch(names, IsStageName) else None)
  }

  /** Extra names at the end of the header are never found by a search they do not pass. */
  lemma FirstMatchIgnoresAppended(names: seq<string>, extra: seq<string>, p: string -> bool)
    requires forall e :: e in extra ==> !p(e)
    ensures FirstMatch(names + extra, p) == FirstMatch(names, p)
  {
    var all := names + extra;
    forall j | |names| <= j < |all| ensures !p(all[j]) {
      assert all[j] == extra[j - |names|];
    }
    forall j | 0 <= j < |names| ensures all[j] == names[j] { }
    var b := FirstMatch(names, p);
    if b.Some? {
      assert all[b.value] == names[b.value];
    }
  }

  /** A name lacking the first character of `t` does not contain `t`. */
  lemma MissingFirstChar(s: string, t: string)
    requires |t| > 0 && t[0] !in s
    ensures !Contains(s, t)
  {
  }

  /** The source adds its derived columns to the table before some of the
      searches run: `Data_Obito_Valida` and `Is_Obito` before the relapse search,
      and further `Is_Recidiva`, `Ano_Recidiva_Considerado` and `Tempo_Anos`
      before the staging search. Neither search finds one of them, so searching
      the header as read gives the same column. */
  lemma RelapseSearchIgnoresDerived(names: seq<string>)
    ensures FirstMatch(names + ["Data_Obito_Valida", "Is_Obito"], IsRelapseName) == FirstMatch(names, IsRelapseName)
  {
    MissingFirstChar("Data_Obito_Valida", "Recidiva");
    MissingFirstChar("Is_Obito", "Recidiva");
    FirstMatchIgnoresAppended(names, ["Data_Obito_Valida", "Is_Obito"], IsRelapseName);
  }

  lemma StageSearchIgnoresDerived(names: seq<string>)
    ensures FirstMatch(names + ["Data_Obito_Valida", "Is_Obito", "Is_Recidiva", "Ano_Recidiva_Considerado", "Tempo_Anos"], IsStageName)
         == FirstMatch(names, IsStageName)
  {
    MissingFirstChar("Data_Obito_Valida", "Estadiamento");
    MissingFirstChar("Is_Obito", "Estadiamento");
    MissingFirstChar("Is_Recidiva", "Estadiamento");
    MissingFirstChar("Ano_Recidiva_Considerado", "Estadiamento");
    MissingFirstChar("Tempo_Anos", "Estadiamento");
    FirstMatchIgnoresAppended(names, ["Data_Obito_Valida", "Is_Obito", "Is_Recidiva", "Ano_Recidiva_Considerado", "Tempo_Anos"], IsStageName);
  }

  /** `str(value)` of a cell: a missing value prints as "nan". */
  function CellText(c: Cell): string {
    match c
    case Some(s) => s
    case None => "nan"
  }

  /** `.astype(str).str.strip().str.upper().isin(['S', 'SIM'])` on one cell. */
  predicate IsAffirmative(c: Cell) {
    Upper(Trim(CellText(c))) in {"S", "SIM"}
  }

  /** The spellings that upper-case to "S" or "SIM". */
  predicate IsYesSpelling(t: string) {
    || (|t| == 1 && t[0] in {'S', 's'})
    || (|t| == 3 && t[0] in {'S', 's'} && t[1] in {'I', 'i'} && t[2] in {'M', 'm'})
  }

  /** Both directions: a cell is affirmative exactly when, once stripped, it is
      "S" or "SIM" in any mix of upper and lower case. */
  lemma AffirmativeSpellings(s: string)
    ensures IsAffirmative(Some(s)) <==> IsYesSpelling(Trim(s))
  {
    var t := Trim(s);
    var u := Upper(t);
    if u == "S" {
      assert u[0] == UpperChar(t[0]) == 'S';
    } else if u == "SIM" {
      assert u[0] == UpperChar(t[0]) == 'S';
      assert u[1] == UpperChar(t[1]) == 'I';
      assert u[2] == UpperChar(t[2]) == 'M';
    }
    if IsYesSpelling(t) {
      if |t| == 1 { assert u == [UpperChar(t[0])]; }
      else { assert u == [UpperChar(t[0]), UpperChar(t[1]), UpperChar(t[2])]; }
    }
  }

  /** A word with no whitespace at either end is its own stripped form. */
  lemma TrimPlainWord(s: string)
    requires s != [] && !IsWhitespace(s[0]) && !IsWhitespace(s[|s| - 1])
    ensures Trim(s) == s
  {
    assert DropLeading(s) == s;
    assert DropTrailing(s) == s;
  }

  /** An empty cell is never affirmative, because it reads as "nan". */
  lemma MissingIsNegative()
    ensures !IsAffirmative(None)
  {
    TrimPlainWord("nan");
    var u := Upper(Trim(CellText(None)));
    assert u == Upper("nan");
    assert u[0] == 'N';
  }

  /** Surrounding whitespace does not change a flag. */
  lemma AffirmativeIgnoresPadding(w1: string, s: string, w2: string)
    requires AllWhitespace(w1) && AllWhitespace(w2)
    ensures IsAffirmative(Some(w1 + s + w2)) == IsAffirmative(Some(s))
  {
    TrimIgnoresPadding(w1, s, w2);
  }

  /** Lower-case and padded tokens count. */
  lemma PaddedLowerCaseYes()
    ensures IsAffirmative(Some(" sim "))
  {
    assert " sim " == [' '] + "sim" + [' '];
    AffirmativeIgnoresPadding([' '], "sim", [' ']);
    TrimPlainWord("sim");
    AffirmativeSpellings("sim");
  }

  /** Only the exact tokens count: text that merely starts with "S", or "YES", is not affirmative. */
  lemma ExactTokensOnly()
    ensures !IsAffirmative(Some("SUSPEITA")) && !IsAffirmative(Some("YES")) && !IsAffirmative(Some("N"))
  {
    TrimPlainWord("SUSPEITA");
    AffirmativeSpellings("SUSPEITA");
    TrimPlainWord("YES");
    AffirmativeSpellings("YES");
    TrimPlainWord("N");
    AffirmativeSpellings("N");
  }
}
