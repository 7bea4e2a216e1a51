/** The per-row derivation: from the cells of one row and the columns that
    discovery found, the typed patient record that the summary counts. The
    source adds each derived value as a new table column (`Data_Obito_Valida`,
    `Is_Obito`, `Is_Recidiva`, `Ano_Recidiva_Considerado`, `Tempo_Anos`,
    `Estagio_Limpo`); here the derived values of one row form one record. */
module Records {
  import opened Wrappers
  import opened Text
  import opened Staging
  import opened Duration
  import opened Columns

  /** The sheet as read: header names, and one row of cells per patient. */
  datatype Table = Table(columns: seq<string>, rows: seq<seq<Cell>>)

  /** Every row has one cell per column, as in a data frame. */
  ghost predicate Rectangular(t: Table) {
    forall k :: 0 <= k < |t.rows| ==> |t.rows[k]| == |t.columns|
  }

  /** The fixed relapse year of `Ano_Recidiva_Considerado`. */
  const RelapseYear: int := 2025

  /** One patient after the common processing. */
  datatype Record = Record(
    sex: Cell,                    // GENERO, as read
    age: Option<real>,            // Idade, coerced to a number
    consult: Option<int>,         // Data Primeira Consulta, coerced to a day number
    deathDate: Option<int>,       // Data_Obito_Valida
    isDeceased: bool,             // Is_Obito
    isRelapsed: bool,             // Is_Recidiva
    relapseYear: Option<int>,     // Ano_Recidiva_Considerado
    treatmentYears: Option<real>, // Tempo_Anos
    stage: Option<Stage>)         // Estagio_Limpo

  /** What holds of every derived record, whatever the sheet contains. */
  ghost predicate WellFormed(r: Record) {
    && r.relapseYear == (if r.isRelapsed then Some(RelapseYear) else None)
    && (r.deathDate.Some? ==> r.isDeceased)
    && (r.treatmentYears.Some? <==> r.consult.Some?)
    && (r.treatmentYears.Some? ==> r.treatmentYears.value >= 0.0)
  }

  /** The cell of a found column, or a missing value when the column is absent. */
  function CellAt(row: seq<Cell>, col: Option<nat>): (c: Cell)
    requires col.Some? ==> col.value < |row|
    ensures col.None? ==> c.None?
  {
    if col.Some? then row[col.value] else None
  }

  /** `Data_Obito_Valida`: the coerced date of the date-form column, NaT otherwise. */
  function DeathDateOf(row: seq<Cell>, death: DeathSource, toDate: Cell -> Option<int>): (d: Option<int>)
    requires !death.NoDeathColumn? ==> death.index < |row|
    ensures d.Some? ==> death.DateColumn? && IsDeceasedOf(row, death, toDate)
  {
    match death
    case DateColumn(i) => toDate(row[i])
    case FlagColumn(_) => None
    case NoDeathColumn => None
  }

  /** `Is_Obito`: a present death date, an affirmative flag, or false without either column. */
  predicate IsDeceasedOf(row: seq<Cell>, death: DeathSource, toDate: Cell -> Option<int>)
    requires !death.NoDeathColumn? ==> death.index < |row|
  {
    match death
    case DateColumn(i) => toDate(row[i]).Some?
    case FlagColumn(i) => IsAffirmative(row[i])
    case NoDeathColumn => false
  }

  /** All derived values of one row. `toDate` and `toNumber` stand for the
      coercing parsers `pd.to_datetime(errors='coerce')` and
      `pd.to_numeric(errors='coerce')`. */
  function DeriveRecord(res: Resolution, row: seq<Cell>, toDate: Cell -> Option<int>, toNumber: Cell -> Option<real>): (r: Record)
    requires FitsWidth(res, |row|)
    ensures WellFormed(r)
    ensures res.age.None? ==> r.age.None?
    ensures res.stage.None? ==> r.stage.None?
    ensures res.sex.None? ==> r.sex.None?
  {
    var consult := if res.consult.Some? then toDate(row[res.consult.value]) else None;
    var deathDate := DeathDateOf(row, res.death, toDate);
    var isRelapsed := res.relapse.Some? && IsAffirmative(row[res.relapse.value]);
    Record(
      CellAt(row, res.sex),
      if res.age.Some? then toNumber(row[res.age.value]) else None,
      consult,
      deathDate,
      IsDeceasedOf(row, res.death, toDate),
      isRelapsed,
      if isRelapsed then Some(RelapseYear) else None,
      TreatmentYears(consult, deathDate),
      if res.stage.Some? then CleanStage(row[res.stage.value]) else None)
  }

  /** With a date-form column, the first one decides: the record is deceased
      exactly when its date parses, and that date ends the treatment time. */
  lemma DeathFromDateColumn(names: seq<string>, disease: Disease, row: seq<Cell>,
                            toDate: Cell -> Option<int>, toNumber: Cell -> Option<real>, i: nat)
    requires |row| == |names|
    requires i < |names| && IsDeathDateName(names[i])
    requires forall j :: 0 <= j < i ==> !IsDeathDateName(names[j])
    ensures var r := DeriveRecord(Resolve(names, disease), row, toDate, toNumber);
      && r.deathDate == toDate(row[i])
      && (r.isDeceased <==> toDate(row[i]).Some?)
  {
    var d := Resolve(names, disease).death;
    assert d.DateColumn?;
    assert !(d.index < i) && !(i < d.index);
  }

  /** With no date-form column, the first flag-form column decides: the record
      is deceased exactly when the stripped cell is "S" or "SIM" in any case,
      and no death date is known. */
  lemma DeathFromFlagColumn(names: seq<string>, disease: Disease, row: seq<Cell>,
                            toDate: Cell -> Option<int>, toNumber: Cell -> Option<real>, i: nat)
    requires |row| == |names|
    requires forall j :: 0 <= j < |names| ==> !IsDeathDateName(names[j])
    requires i < |names| && IsDeathFlagName(names[i])
    requires forall j :: 0 <= j < i ==> !IsDeathFlagName(names[j])
    ensures var r := DeriveRecord(Resolve(names, disease), row, toDate, toNumber);
      && r.deathDate.None?
      && (r.isDeceased <==> row[i].Some? && IsYesSpelling(Trim(row[i].value)))
  {
    FlagColumnFound(names, i);
    match row[i]
    case Some(s) => AffirmativeSpellings(s);
    case None => MissingIsNegative();
  }

  lemma FlagColumnFound(names: seq<string>, i: nat)
    requires forall j :: 0 <= j < |names| ==> !IsDeathDateName(names[j])
    requires i < |names| && IsDeathFlagName(names[i])
    requires forall j :: 0 <= j < i ==> !IsDeathFlagName(names[j])
    ensures ResolveDeath(names) == FlagColumn(i)
  {
    var d := ResolveDeath(names);
    assert !(d.index < i) && !(i < d.index);
  }

  /** Without either kind of death column, no record is deceased. */
  lemma NoDeathColumns(names: seq<string>, disease: Disease, row: seq<Cell>,
                       toDate: Cell -> Option<int>, toNumber: Cell -> Option<real>)
    requires |row| == |names|
    requires forall j :: 0 <= j < |names| ==> !IsDeathDateName(names[j]) && !IsDeathFlagName(names[j])
    ensures var r := DeriveRecord(Resolve(names, disease), row, toDate, toNumber);
      !r.isDeceased && r.deathDate.None?
  {
  }

  /** The first relapse column decides the relapse flag, which is false when no
      such column exists; the considered relapse year is 2025 exactly for a
      relapsed record. */
  lemma RelapseFlag(names: seq<string>, disease: Disease, row: seq<Cell>,
                    toDate: Cell -> Option<int>, toNumber: Cell -> Option<real>)
    requires |row| == |names|
    ensures var r := DeriveRecord(Resolve(names, disease), row, toDate, toNumber);
      var col := FirstMatch(names, IsRelapseName);
      && (col.None? ==> !r.isRelapsed)
      && (col.Some? ==> (r.isRelapsed <==> row[col.value].Some? && IsYesSpelling(Trim(row[col.value].value))))
      && (r.relapseYear == Some(2025) <==> r.isRelapsed)
  {
    var col := FirstMatch(names, IsRelapseName);
    if col.Some? {
      match row[col.value]
      case Some(s) => AffirmativeSpellings(s);
      case None => MissingIsNegative();
    }
  }

  /** The treatment time reads the consult column only when it is present. */
  lemma TreatmentTimeOfRow(names: seq<string>, disease: Disease, row: seq<Cell>,
                           toDate: Cell -> Option<int>, toNumber: Cell -> Option<real>)
    requires |row| == |names|
    ensures var r := DeriveRecord(Resolve(names, disease), row, toDate, toNumber);
      && (ConsultName !in names ==> r.treatmentYears.None?)
      && (ConsultName in names ==>
            r.treatmentYears == TreatmentYears(toDate(row[IndexOf(names, ConsultName).value]), r.deathDate))
  {
  }

  /** The staging text is read for Linfomas only, from the first
      "Estadiamento" column, and cleaned by `clean_stage`. */
  lemma StageOfRow(names: seq<string>, disease: Disease, row: seq<Cell>,
                   toDate: Cell -> Option<int>, toNumber: Cell -> Option<real>, i: nat)
    requires |row| == |names|
    requires i < |names| && IsStageName(names[i])
    requires forall j :: 0 <= j < i ==> !IsStageName(names[j])
    ensures var r := DeriveRecord(Resolve(names, disease), row, toDate, toNumber);
      r.stage == if disease == Linfomas then CleanStage(row[i]) else None
  {
    var col := FirstMatch(names, IsStageName);
    assert !(col.value < i) && !(i < col.value);
  }

  /** The derived values of every row, in row order, for columns already found. */
  method DeriveRows(res: Resolution, rows: seq<seq<Cell>>, width: nat,
                    toDate: Cell -> Option<int>, toNumber: Cell -> Option<real>)
    returns (recs: seq<Record>)
    requires FitsWidth(res, width)
    requires forall k :: 0 <= k < |rows| ==> |rows[k]| == width
    ensures |recs| == |rows|
    ensures forall k :: 0 <= k < |rows| ==> recs[k] == DeriveRecord(res, rows[k], toDate, toNumber)
  {
    recs := [];
    var k := 0;
    while k < |rows|
      invariant 0 <= k <= |rows|
      invariant |recs| == k
      invariant forall j :: 0 <= j < k ==> recs[j] == DeriveRecord(res, rows[j], toDate, toNumber)
    {
      recs := recs + [DeriveRecord(res, rows[k], toDate, toNumber)];
      k := k + 1;
    }
  }

  /** The common processing: discovery over the stripped header, then the
      derived values of every row. */
  method Enrich(t: Table, disease: Disease, toDate: Cell -> Option<int>, toNumber: Cell -> Option<real>)
    returns (res: Resolution, recs: seq<Record>)
    requires Rectangular(t)
    ensures res == Resolve(TrimNames(t.columns), disease)
    ensures |recs| == |t.rows|
    ensures forall k :: 0 <= k < |t.rows| ==> recs[k] == DeriveRecord(res, t.rows[k], toDate, toNumber)
  {
    res := Resolve(TrimNames(t.columns), disease);
    recs := DeriveRows(res, t.rows, |t.columns|, toDate, toNumber);
  }
}
