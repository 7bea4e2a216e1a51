/** The summary table: one row per cohort (`create_summary_row`), F and M when
    the sheet has a `GENERO` column, then Total. A row is the dictionary the
    source fills, as its entries in insertion order. */
module Summary {
  import opened Wrappers
  import opened Staging
  import opened Columns
  import opened Buckets
  import opened Records

  datatype Value = Label(text: string) | Count(n: nat)
  datatype Entry = Entry(key: string, value: Value)

  const AgeBins: seq<real> := [0.0, 20.0, 40.0, 60.0, 80.0, 150.0]
  const AgeLabels: seq<string> := ["≤20", "21-40", "41-60", "61-80", ">80"]
  const TimeBins: seq<real> := [-1.0, 2.0, 5.0, 10.0, 100.0]
  const TimeLabels: seq<string> := ["≤2 anos", "3-5 anos", "6-10 anos", ">10 Anos"]

  /** The stage columns, in the order the row lists them. */
  const StageOrder: seq<Stage> := [I, II, III, IV]

  lemma BinsIncreasing()
    ensures StrictlyIncreasing(AgeBins) && StrictlyIncreasing(TimeBins)
  {
    forall i, j | 0 <= i < j < |AgeBins| ensures AgeBins[i] < AgeBins[j] {
      assert i in {0, 1, 2, 3, 4} && j in {1, 2, 3, 4, 5};
    }
    forall i, j | 0 <= i < j < |TimeBins| ensures TimeBins[i] < TimeBins[j] {
      assert i in {0, 1, 2, 3} && j in {1, 2, 3, 4};
    }
  }

  /** The key `f'{prefix} ({label})'`. */
  function BucketKey(prefix: string, caption: string): string {
    prefix + " (" + caption + ")"
  }

  /** The keys `'Est. I'` to `'Est. IV'`. */
  function StageKey(st: Stage): string {
    "Est. " + Numeral(st)
  }

  /** The `Idade` column of a cohort. */
  function Ages(sub: seq<Record>): (xs: seq<Option<real>>)
    ensures |xs| == |sub| && forall i :: 0 <= i < |sub| ==> xs[i] == sub[i].age
  {
    seq(|sub|, i requires 0 <= i < |sub| => sub[i].age)
  }

  /** The `Tempo_Anos` column of a cohort. */
  function Times(sub: seq<Record>): (xs: seq<Option<real>>)
    ensures |xs| == |sub| && forall i :: 0 <= i < |sub| ==> xs[i] == sub[i].treatmentYears
  {
    seq(|sub|, i requires 0 <= i < |sub| => sub[i].treatmentYears)
  }

  /** `series.notna().any()` */
  predicate AnyDefined(xs: seq<Option<real>>) {
    exists i :: 0 <= i < |xs| && xs[i].Some?
  }

  /** How many records of a cohort satisfy `p`. */
  function CountWhere(sub: seq<Record>, p: Record -> bool): (n: nat)
    ensures n <= |sub|
  {
    if sub == [] then 0 else CountWhere(sub[..|sub| - 1], p) + (if p(sub[|sub| - 1]) then 1 else 0)
  }

  predicate IsDeceased(r: Record) { r.isDeceased }
  predicate IsRelapsed(r: Record) { r.isRelapsed }
  predicate InRelapseYear(r: Record) { r.relapseYear == Some(RelapseYear) }

  /** `value_counts().get(numeral, 0)` of `Estagio_Limpo`. */
  function CountStage(sub: seq<Record>, st: Stage): (n: nat)
    ensures n <= |sub|
  {
    CountWhere(sub, (r: Record) => r.stage == Some(st))
  }

  /** The number held by an entry, zero for a label. */
  function CountOf(e: Entry): nat {
    if e.value.Count? then e.value.n else 0
  }

  function SumCounts(es: seq<Entry>): nat {
    if es == [] then 0 else SumCounts(es[..|es| - 1]) + CountOf(es[|es| - 1])
  }

  /** Where the stage entries end: they are present only with staging. */
  function StageEntries(hasStaging: bool): nat {
    if hasStaging then 4 else 0
  }

  /** The row of a cohort, entry by entry, in the order the source adds them:
      the label, Total, five age buckets, four time buckets, the four stage
      counts when staging is on, the death count and the 2025 relapse count. */
  ghost predicate Describes(data: seq<Entry>, sub: seq<Record>, caption: string, hasStaging: bool) {
    BinsIncreasing();
    var s := StageEntries(hasStaging);
    && |data| == 13 + s
    && data[0] == Entry("Gênero", Label(caption))
    && data[1] == Entry("Total", Count(|sub|))
    && (forall k :: 0 <= k < 5 ==>
          data[2 + k] == Entry(BucketKey("Idade", AgeLabels[k]), Count(Occurrences(CutAll(AgeBins, Ages(sub)), k))))
    && (forall k :: 0 <= k < 4 ==>
          data[7 + k] == Entry(BucketKey("Tempo", TimeLabels[k]), Count(Occurrences(CutAll(TimeBins, Times(sub)), k))))
    && (forall k :: 0 <= k < s ==> data[11 + k] == Entry(StageKey(StageOrder[k]), Count(CountStage(sub, StageOrder[k]))))
    && data[11 + s] == Entry("Óbitos", Count(CountWhere(sub, IsDeceased)))
    && data[12 + s] == Entry("2025 (Recidiva)", Count(CountWhere(sub, InRelapseYear)))
  }

  /** The loop `for lbl in labels: data[f'{prefix} ({lbl})'] = counts.get(lbl, 0)`. */
  method AppendBucketEntries(data: seq<Entry>, prefix: string, labels: seq<string>, counts: seq<nat>)
    returns (out: seq<Entry>)
    requires |counts| == |labels|
    ensures |out| == |data| + |labels| && out[..|data|] == data
    ensures forall k :: 0 <= k < |labels| ==> out[|data| + k] == Entry(BucketKey(prefix, labels[k]), Count(counts[k]))
  {
    out := data;
    for k := 0 to |labels|
      invariant |out| == |data| + k && out[..|data|] == data
      invariant forall j :: 0 <= j < k ==> out[|data| + j] == Entry(BucketKey(prefix, labels[j]), Count(counts[j]))
    {
      out := out + [Entry(BucketKey(prefix, labels[k]), Count(counts[k]))];
    }
  }

  /** The bucket counts of one column: `pd.cut(...).value_counts()` when the
      cohort is not empty, the column exists and some value is present, and
      all zeros otherwise. Both branches give the per-bucket occurrence counts. */
  method BucketCounts(xs: seq<Option<real>>, hasColumn: bool, bins: seq<real>) returns (counts: seq<nat>)
    requires StrictlyIncreasing(bins) && |bins| >= 1
    requires !hasColumn ==> forall i :: 0 <= i < |xs| ==> xs[i].None?
    ensures |counts| == |bins| - 1
    ensures forall k :: 0 <= k < |counts| ==> counts[k] == Occurrences(CutAll(bins, xs), k)
  {
    if |xs| > 0 && hasColumn && AnyDefined(xs) {
      counts := ValueCounts(CutAll(bins, xs), |bins| - 1);
    } else {
      counts := seq(|bins| - 1, k => 0);
      forall k | 0 <= k < |counts| ensures counts[k] == Occurrences(CutAll(bins, xs), k) {
        NoValuesNoCounts(bins, xs, k);
      }
    }
  }

  /** `create_summary_row(sub_df, label)`. `hasAgeColumn` is `'Idade' in sub_df`;
      without that column every age is missing. */
  method CreateSummaryRow(sub: seq<Record>, caption: string, hasAgeColumn: bool, hasStaging: bool)
    returns (data: seq<Entry>)
    requires !hasAgeColumn ==> forall i :: 0 <= i < |sub| ==> sub[i].age.None?
    ensures Describes(data, sub, caption, hasStaging)
  {
    BinsIncreasing();
    var head := [Entry("Gênero", Label(caption)), Entry("Total", Count(|sub|))];
    var ageCounts := BucketCounts(Ages(sub), hasAgeColumn, AgeBins);
    var withAges := AppendBucketEntries(head, "Idade", AgeLabels, ageCounts);
    var timeCounts := BucketCounts(Times(sub), true, TimeBins);
    var buckets := AppendBucketEntries(withAges, "Tempo", TimeLabels, timeCounts);
    forall k | 0 <= k < 7 ensures buckets[k] == withAges[k] {
      assert buckets[..7][k] == buckets[k];
    }
    var stages := if hasStaging then
        [Entry(StageKey(I), Count(CountStage(sub, I))), Entry(StageKey(II), Count(CountStage(sub, II))),
         Entry(StageKey(III), Count(CountStage(sub, III))), Entry(StageKey(IV), Count(CountStage(sub, IV)))]
      else [];
    var outcomes := [Entry("Óbitos", Count(CountWhere(sub, IsDeceased))),
                     Entry("2025 (Recidiva)", Count(CountWhere(sub, InRelapseYear)))];
    data := buckets + stages + outcomes;
    assert data[..11] == buckets;
    forall k | 0 <= k < 11 ensures data[k] == buckets[k] {
      assert data[..11][k] == data[k];
    }
  }

  /** `df[df['GENERO'] == g]`: the records whose GENERO cell is exactly `g`, in order. */
  function Cohort(recs: seq<Record>, g: string): (c: seq<Record>)
    ensures |c| <= |recs|
    ensures forall i :: 0 <= i < |c| ==> c[i] in recs && c[i].sex == Some(g)
    ensures forall r :: r in recs && r.sex == Some(g) ==> r in c
    ensures forall r :: multiset(c)[r] == (if r.sex == Some(g) then multiset(recs)[r] else 0)
  {
    if recs == [] then []
    else
      assert recs == [recs[0]] + recs[1..];
      (if recs[0].sex == Some(g) then [recs[0]] else []) + Cohort(recs[1..], g)
  }

  /** The filter keeps the row order: the cohort of a table split in two is the
      cohort of the first part followed by the cohort of the second. */
  lemma {:induction false} CohortOfConcat(a: seq<Record>, b: seq<Record>, g: string)
    ensures Cohort(a + b, g) == Cohort(a, g) + Cohort(b, g)
  {
    if a == [] {
      assert a + b == b;
    } else {
      var ab := a + b;
      var head := if a[0].sex == Some(g) then [a[0]] else [];
      assert ab[0] == a[0] && ab[1..] == a[1..] + b;
      CohortOfConcat(a[1..], b, g);
      calc {
        Cohort(ab, g);
        head + Cohort(a[1..] + b, g);
        head + (Cohort(a[1..], g) + Cohort(b, g));
        { ConcatAssoc(head, Cohort(a[1..], g), Cohort(b, g)); }
        (head + Cohort(a[1..], g)) + Cohort(b, g);
      }
    }
  }

  /** Grouping of concatenations, stated apart so that the cohort proof above
      reasons about it in a small context. */
  lemma ConcatAssoc(x: seq<Record>, y: seq<Record>, z: seq<Record>)
    ensures x + (y + z) == (x + y) + z
  {
  }

  /** A single record is kept exactly when its GENERO cell is `g`. */
  lemma CohortOfOne(r: Record, g: string)
    ensures Cohort([r], g) == if r.sex == Some(g) then [r] else []
  {
    assert [r][1..] == [];
  }

  /** The rows list: F and M when the sheet has a GENERO column, then Total. */
  ghost predicate ReportRows(rows: seq<seq<Entry>>, recs: seq<Record>, hasSex: bool, hasStaging: bool) {
    && |rows| == (if hasSex then 3 else 1)
    && (hasSex ==> Describes(rows[0], Cohort(recs, "F"), "F", hasStaging))
    && (hasSex ==> Describes(rows[1], Cohort(recs, "M"), "M", hasStaging))
    && Describes(rows[|rows| - 1], recs, "Total", hasStaging)
  }

  /** Rows F and M (when the sheet has GENERO, empty or not), then the Total row. */
  method BuildRows(recs: seq<Record>, hasSex: bool, hasAgeColumn: bool, hasStaging: bool)
    returns (rows: seq<seq<Entry>>)
    requires !hasAgeColumn ==> forall i :: 0 <= i < |recs| ==> recs[i].age.None?
    ensures ReportRows(rows, recs, hasSex, hasStaging)
  {
    rows := [];
    if hasSex {
      var f := CreateSummaryRow(Cohort(recs, "F"), "F", hasAgeColumn, hasStaging);
      rows := rows + [f];
      var m := CreateSummaryRow(Cohort(recs, "M"), "M", hasAgeColumn, hasStaging);
      rows := rows + [m];
    }
    var total := CreateSummaryRow(recs, "Total", hasAgeColumn, hasStaging);
    rows := rows + [total];
  }

  /** The whole report: the common processing, then the cohort rows. */
  method GenerateReport(t: Table, disease: Disease, toDate: Cell -> Option<int>, toNumber: Cell -> Option<real>)
    returns (recs: seq<Record>, rows: seq<seq<Entry>>)
    requires Rectangular(t)
    ensures |recs| == |t.rows|
    ensures forall k :: 0 <= k < |t.rows| ==>
              recs[k] == DeriveRecord(Resolve(TrimNames(t.columns), disease), t.rows[k], toDate, toNumber)
    ensures ReportRows(rows, recs, SexName in TrimNames(t.columns), StagingOn(TrimNames(t.columns), disease))
  {
    var res;
    res, recs := Enrich(t, disease, toDate, toNumber);
    rows := BuildRows(recs, res.sex.Some?, res.age.Some?, res.stage.Some?);
  }

  /** The counts of consecutive buckets add up to the occurrence sum. */
  lemma {:induction false} SumCountsOfBuckets(es: seq<Entry>, codes: seq<Option<nat>>)
    requires forall k :: 0 <= k < |es| ==> CountOf(es[k]) == Occurrences(codes, k)
    ensures SumCounts(es) == SumOccurrences(codes, |es|)
  {
    if es != [] {
      SumCountsOfBuckets(es[..|es| - 1], codes);
    }
  }

  /** In every row the age buckets together, and the time buckets together,
      hold at most the row's Total. */
  lemma BucketsWithinTotal(data: seq<Entry>, sub: seq<Record>, caption: string, hasStaging: bool)
    requires Describes(data, sub, caption, hasStaging)
    ensures SumCounts(data[2..7]) <= CountOf(data[1])
    ensures SumCounts(data[7..11]) <= CountOf(data[1])
  {
    BinsIncreasing();
    SumCountsOfBuckets(data[2..7], CutAll(AgeBins, Ages(sub)));
    BucketCountsAtMostTotal(CutAll(AgeBins, Ages(sub)), 5);
    SumCountsOfBuckets(data[7..11], CutAll(TimeBins, Times(sub)));
    BucketCountsAtMostTotal(CutAll(TimeBins, Times(sub)), 4);
  }

  /** A cohort without a single age has every age bucket at zero. */
  lemma NoAgesZeroBuckets(data: seq<Entry>, sub: seq<Record>, caption: string, hasStaging: bool)
    requires Describes(data, sub, caption, hasStaging)
    requires forall i :: 0 <= i < |sub| ==> sub[i].age.None?
    ensures forall k :: 2 <= k < 7 ==> CountOf(data[k]) == 0
  {
    BinsIncreasing();
    forall k | 2 <= k < 7 ensures CountOf(data[k]) == 0 {
      NoValuesNoCounts(AgeBins, Ages(sub), k - 2);
    }
  }

  /** A relapsed record is exactly one whose considered year is 2025. */
  lemma {:induction false} RelapseYearCountsRelapsed(sub: seq<Record>)
    requires forall i :: 0 <= i < |sub| ==> WellFormed(sub[i])
    ensures CountWhere(sub, InRelapseYear) == CountWhere(sub, IsRelapsed)
  {
    if sub != [] {
      RelapseYearCountsRelapsed(sub[..|sub| - 1]);
    }
  }

  /** So the "2025 (Recidiva)" entry counts the relapsed records of the cohort. */
  lemma RelapseEntryCountsRelapsed(data: seq<Entry>, sub: seq<Record>, caption: string, hasStaging: bool)
    requires Describes(data, sub, caption, hasStaging)
    requires forall i :: 0 <= i < |sub| ==> WellFormed(sub[i])
    ensures data[|data| - 1] == Entry("2025 (Recidiva)", Count(CountWhere(sub, IsRelapsed)))
  {
    RelapseYearCountsRelapsed(sub);
  }

  /** Stage columns appear exactly when staging is on. */
  lemma StageColumnsOnlyWithStaging(data: seq<Entry>, sub: seq<Record>, caption: string, hasStaging: bool)
    requires Describes(data, sub, caption, hasStaging)
    ensures hasStaging <==> exists k :: 0 <= k < |data| && data[k].key == StageKey(I)
  {
    if hasStaging {
      assert data[11 + 0].key == StageKey(StageOrder[0]);
    } else {
      forall k | 0 <= k < |data| ensures data[k].key != StageKey(I) {
        assert StageKey(I)[0] == 'E';
        if 2 <= k < 7 {
          var j := k - 2;
          assert data[2 + j].key == BucketKey("Idade", AgeLabels[j]);
          assert data[k].key[0] == 'I';
        } else if 7 <= k < 11 {
          var j := k - 7;
          assert data[7 + j].key == BucketKey("Tempo", TimeLabels[j]);
          assert data[k].key[0] == 'T';
        }
      }
    }
  }

  /** The age buckets are right-closed: 20 is in "≤20" and 80 in "61-80"; just
      above a bound is the next bucket; 0, a negative age and anything above 150
      are in none. */
  lemma AgeBucketBoundaries()
    ensures Cut(AgeBins, Some(20.0)) == Some(0) && AgeLabels[0] == "≤20"
    ensures Cut(AgeBins, Some(20.5)) == Some(1)
    ensures Cut(AgeBins, Some(80.0)) == Some(3) && AgeLabels[3] == "61-80"
    ensures Cut(AgeBins, Some(80.5)) == Some(4)
    ensures Cut(AgeBins, Some(150.0)) == Some(4)
    ensures Cut(AgeBins, Some(0.0)) == None && Cut(AgeBins, Some(-3.0)) == None
    ensures Cut(AgeBins, Some(150.5)) == None && Cut(AgeBins, None) == None
  {
    BinsIncreasing();
    CutExact(AgeBins, 20.0, 0);
    CutExact(AgeBins, 20.5, 1);
    CutExact(AgeBins, 80.0, 3);
    CutExact(AgeBins, 80.5, 4);
    CutExact(AgeBins, 150.0, 4);
  }

  /** A derived treatment time of at most 100 years always falls in a time bucket,
      because it is never negative; a longer one falls in none. */
  lemma TimeLandsInBucket(r: Record)
    requires WellFormed(r) && r.treatmentYears.Some?
    ensures (BinsIncreasing(); Cut(TimeBins, r.treatmentYears).Some? <==> r.treatmentYears.value <= 100.0)
  {
  }

  /** The F and M cohorts are disjoint parts of the table. */
  lemma {:induction false} CohortsWithinTable(recs: seq<Record>)
    ensures |Cohort(recs, "F")| + |Cohort(recs, "M")| <= |recs|
  {
    if recs != [] {
      CohortsWithinTable(recs[1..]);
    }
  }

  /** A record has at most one stage, so the four stage entries add up to at most Total. */
  lemma {:induction false} StageCountsWithinTotal(sub: seq<Record>)
    ensures CountStage(sub, I) + CountStage(sub, II) + CountStage(sub, III) + CountStage(sub, IV) <= |sub|
  {
    if sub != [] {
      StageCountsWithinTotal(sub[..|sub| - 1]);
    }
  }
}
