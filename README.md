# Oncology registry summary — verified model

The application reads a registry export of oncology patients (Linfomas or
Mieloma Múltiplo), turns each row into a patient record, and counts the
records into one summary row per cohort: women (F), men (M) and everyone
(Total). Each row holds:

- five age buckets and four treatment-time buckets;
- for Linfomas with a staging column, the number of patients in stages I to IV;
- the number of deaths and the number of relapses counted for 2025.

This project models that core in Dafny and proves what it computes.

- **Stage extraction** (`Staging`). `clean_stage` upper-cases the staging
  text and looks for the pattern `\b(IV|III|II|I)\b`. The model specifies
  the result declaratively: it is the whole-word numeral that starts
  furthest left and, at that position, is the first of the alternatives in
  the order IV, III, II, I. The model proves the search returns exactly
  that numeral, in both directions. At any position at most one numeral can
  be a whole word, so "III" is never read as "I".
- **Treatment time** (`Duration`). Dates are day numbers counted from
  1970-01-01. The time runs from the first consult to the death date, or
  to the cutoff 2025-12-31 (day 20453). It is exact rational arithmetic
  (`real`) divided by 365.25, and it is 0 when the consult falls after the
  end.
- **Column discovery and flags** (`Columns`). The header names are
  stripped. Each role (consult date, age, sex, death date or death flag,
  relapse flag, staging text) is the first column whose name passes a
  fixed test; a missing column is simply absent. The death-date form wins
  over the flag form. A flag cell is affirmative when, stripped and
  upper-cased, it is "S" or "SIM". A missing cell reads as "nan", so it is
  never affirmative.
- **Record derivation** (`Records`). Each row gives one `Record`: the
  derived death date, death flag, relapse flag, 2025 relapse year,
  treatment time and stage. `Enrich` derives the records row by row.
- **Buckets** (`Buckets`). `pd.cut` uses right-closed intervals and does
  not include the lowest edge, and `value_counts` does the counting. The
  counts of all buckets add up to at most the number of values counted.
- **Summary rows** (`Summary`). `create_summary_row` fills its dictionary
  step by step; `Describes` states each entry of a finished row. The F and
  M rows are emitted whenever a `GENERO` column exists, and the Total row
  is always emitted last.

The date and number parsers (`pd.to_datetime` and `pd.to_numeric`, both
with `errors='coerce'`) are library code. The model takes them as the
parameters `toDate: Cell -> Option<int>` and `toNumber: Cell -> Option<real>`.
A `Cell` is the text of a cell, or `None` for an empty cell (NaN).

Further behaviour of the code that the model keeps:

- **Name tests.** Consult date, age and sex are found by exact name
  ("Data Primeira Consulta", "Idade", "GENERO"). The other roles are found
  by case-sensitive containment. Only the "óbito" test lower-cases the name.
- **Missing `GENERO` column.** The report then holds only the Total row.
- **Flag tokens.** Exactly "S" and "SIM" count, after stripping and
  upper-casing.
- **Relapses.** One count is reported: the "2025 (Recidiva)" entry, which
  counts every relapsed record.
- **Cohorts.** The F and M rows are emitted even when their cohort is empty.

## Model

| member | source | states |
|---|---|---|
| Text.Contains | app.py:93-94 | Python's `t in s`: true exactly when `t` occurs in `s` at some index |
| Text.IsWordChar | app.py:24 | `\w` over Latin-1, as `\b` reads it; characterised by `Text.CaseMappingKeepsClasses` and `Staging.WholeWordUnique` |
| Text.IsWhitespace | app.py:80 | `str.isspace` over Latin-1, as `strip` uses it here and at app.py:107 and app.py:114; characterised by `Text.TrimIsPaddedInfix` |
| Text.Trim | app.py:80 | `str.strip`, also used on flag cells at app.py:107 and app.py:114, characterised by `Text.TrimIsPaddedInfix` and `Text.TrimIgnoresPadding` |
| Text.Upper | app.py:23 | `str.upper`, character by character through `Text.UpperChar`, with `Text.UpperAbsorbs` |
| Text.Lower | app.py:93 | `str.lower`, character by character through `Text.LowerChar` |
| Text.TrimIsPaddedInfix | app.py:80 | `strip` returns an infix of the text with only whitespace around it, and that infix starts and ends with non-whitespace |
| Text.TrimIgnoresPadding | app.py:107 | whitespace added on either side never changes what `strip` returns |
| Text.UpperAbsorbs | app.py:23 | upper-casing twice, or after lower-casing, is the same as upper-casing once |
| Text.UpperChar | app.py:23 | no lower-case letter is left; a lower-case letter becomes an upper-case letter whose lower-case form is the original; any other character is unchanged |
| Text.LowerChar | app.py:93 | no upper-case letter is left; an upper-case letter becomes a lower-case letter; any other character is unchanged |
| Text.CaseMappingKeepsClasses | app.py:23-24 | upper-casing after lower-casing restores an upper-case letter, and case mapping keeps word characters and whitespace in their classes |
| Staging.MatchAtFindsFirstAlternative | app.py:24 | the anchored match returns the first alternative in IV, III, II, I order that is a whole word at the position, or None when none is |
| Staging.MatchAt | app.py:24 | the pattern anchored at one position, characterised by `Staging.MatchAtFindsFirstAlternative` |
| Staging.IsBoundary | app.py:24 | `\b` at one index: exactly one side is a word character; characterised by `Staging.NoBoundaryInsideNumeral` and `Staging.UpperKeepsBoundaries` |
| Staging.WholeWordAt | app.py:24 | `\b<numeral>\b` at one position; characterised by `Staging.WholeWordUnique` and `Staging.MatchAtFindsFirstAlternative` |
| Staging.SearchFrom | app.py:24 | scanning from `p`, the result is a match at the smallest position at or after `p` with no match between; None means no whole-word numeral starts at or after `p` |
| Staging.Search | app.py:24-25 | a found stage is at a leftmost match; None means no whole-word numeral anywhere |
| Staging.CleanStage | app.py:21-25 | a missing value gives None; otherwise the stage is a leftmost match of the upper-cased text, and None means the upper-cased text has no whole-word numeral |
| Staging.NoBoundaryInsideNumeral | app.py:24 | there is no word boundary strictly inside a whole-word numeral |
| Staging.WholeWordUnique | app.py:24 | at one position at most one of I, II, III, IV is a whole word |
| Staging.LeftmostMatchUnique | app.py:24 | the declarative leftmost match is unique in position and stage |
| Staging.CleanStageIsLeftmostMatch | app.py:21-25 | `clean_stage` returns stage `st` if and only if `st` is the leftmost whole-word numeral of the upper-cased text |
| Staging.UpperKeepsBoundaries | app.py:23-24 | upper-casing the text before the search leaves every word boundary `\b` at the same index |
| Staging.UpperWholeWord | app.py:23-24 | a whole-word numeral of the upper-cased text stands between word boundaries of the text as given |
| Staging.FoundNumeralIsWholeWordOfInput | app.py:21-25 | the numeral `clean_stage` returns occurs, up to case, between word boundaries of the original text |
| Staging.CleanStageIgnoresCase | app.py:23 | lower-casing or upper-casing the input first does not change the stage |
| Staging.StandaloneNumeral | app.py:24-25 | "I", "II", "III" and "IV" alone give their own stage, so "III" is not reduced to "I" and "IV" is not reduced to "I" |
| Staging.HyphenatedSubstage | app.py:23-25 | "II-A" gives stage II |
| Staging.AttachedSubstage | app.py:24-25 | "IIIB" gives no stage, because B is a word character |
| Staging.NoNumeral | app.py:23-25 | "indefinido" gives no stage |
| Staging.NumeralInSentence | app.py:23-25 | "Estadiamento IV - metástase" gives stage IV |
| Duration.CalendarAnchors | app.py:38 | day 0 is 1970-01-01, 2025-01-01 follows 2024-12-31 by one day, and the cutoff 2025-12-31 is day 20453 |
| Duration.DayNumber | app.py:38-43 | the day arithmetic behind `pd.Timestamp` and `.days`, characterised by `Duration.CalendarAnchors` |
| Duration.Cutoff | app.py:38 | `pd.Timestamp("2025-12-31")` as a day number, 20453 by `Duration.CalendarAnchors` |
| Duration.TreatmentYears | app.py:27-45 | None exactly when the consult date is missing; 0 when the consult is after the end (death date, else cutoff); otherwise the elapsed days divided by 365.25; never negative |
| Duration.EndDate | app.py:38-40 | the death date when one is known, else the cutoff; its use is stated by `Duration.TreatmentYears` |
| Duration.TreatmentYearsAntitone | app.py:36-43 | a later consult never gives a longer treatment time |
| Duration.LivingPatientExample | app.py:38-43 | a living patient first seen on 2020-01-01 has 2191 days to the cutoff, 2191/365.25 years |
| Duration.ConsultAfterEndExample | app.py:42 | a consult after the cutoff or after the death date gives 0 |
| Columns.TrimNames | app.py:80 | every column name is replaced by its stripped form, order and count kept |
| Columns.FirstMatchFrom | app.py:93-94 | the first index at or after `i` whose name passes the test, or None when none does |
| Columns.FirstMatch | app.py:93-94 | element `[0]` of the filtered column list: passes the test, no earlier name passes; None if and only if no name passes |
| Columns.IndexOf | app.py:85-89 | the `'X' in df.columns` test: an index holding exactly the name, None if and only if the name is absent |
| Columns.IsDeathDateName | app.py:93 | the date-form test, characterised by `Columns.ResolveDeath` and `Columns.NameTestExamples` |
| Columns.IsDeathFlagName | app.py:94 | the flag-form test, characterised by `Columns.ResolveDeath` and `Columns.NameTestExamples` |
| Columns.IsRelapseName | app.py:112 | the relapse-column test, characterised by `Columns.RelapseSearchIgnoresDerived` and `Columns.NameTestExamples` |
| Columns.IsStageName | app.py:127 | the staging-column test, characterised by `Columns.StageSearchIgnoresDerived` and `Columns.NameTestExamples` |
| Columns.NameTestExamples | app.py:93-127 | "Data do Óbito" is date-form and not flag-form, "Óbito (S/N)" is flag-form, "Recidiva (S) ou (N)" is a relapse column and "Estadiamento Ann Arbor" a staging column |
| Columns.ResolveDeath | app.py:93-109 | a date-form column is used if and only if one exists, and then the first; otherwise the first flag-form column; no death column if and only if neither form exists |
| Columns.Resolve | app.py:80-130 | all found indices fit the header; consult, age and sex are found if and only if the exact names exist, and then point at a column of exactly that name; the death source is the one `ResolveDeath` chooses; relapse is the first relapse-named column, found if and only if one exists; staging is the first staging-named column for Linfomas, and is found if and only if the disease is Linfomas and such a column exists |
| Columns.FirstMatchIgnoresAppended | app.py:96-127 | names added after the header that fail a test do not change the first match |
| Columns.RelapseSearchIgnoresDerived | app.py:96-112 | the relapse search finds the same column although `Data_Obito_Valida` and `Is_Obito` were added before it |
| Columns.StageSearchIgnoresDerived | app.py:96-127 | the staging search finds the same column although five derived columns were added before it |
| Columns.CellText | app.py:107 | `astype(str)` of one cell, a missing value reading "nan"; characterised by `Columns.MissingIsNegative` |
| Columns.IsAffirmative | app.py:107-114 | the S/SIM flag test, characterised by `Columns.AffirmativeSpellings` and `Columns.MissingIsNegative` |
| Columns.AffirmativeSpellings | app.py:107 | a cell is affirmative if and only if its stripped text is S or SIM in any mix of cases |
| Columns.MissingIsNegative | app.py:107 | an empty cell, read as "nan", is not affirmative |
| Columns.AffirmativeIgnoresPadding | app.py:107 | surrounding whitespace does not change a flag |
| Columns.PaddedLowerCaseYes | app.py:114 | " sim " is affirmative |
| Columns.ExactTokensOnly | app.py:114 | "SUSPEITA", "YES" and "N" are not affirmative |
| Buckets.CutFrom | app.py:141 | the interval search from interval `k`: a found index holds the value, and none means the value is above the last edge |
| Buckets.Cut | app.py:141 | a value gets an index if and only if it is present and lies in (first edge, last edge], and the index is the interval (bins[k], bins[k+1]] that holds it |
| Buckets.Occurrences | app.py:141-146 | `value_counts().get(k, 0)`: the counting loop `Buckets.ValueCounts` is proved equal to it, and `Buckets.SumOccurrencesIsCountBelow` sums it |
| Buckets.CutExact | app.py:141 | the value lies in interval `k` if and only if `Cut` returns `k` |
| Buckets.CutAll | app.py:141 | `pd.cut` over a column, value by value |
| Buckets.ValueCounts | app.py:141-146 | the counting loop gives, for each bucket, the number of values coded with it |
| Buckets.SumOfIndicators | app.py:141-146 | each value adds at most one to the bucket counts taken together |
| Buckets.SumOccurrencesIsCountBelow | app.py:141-146 | the bucket counts add up to the number of values that fall in some bucket |
| Buckets.BucketCountsAtMostTotal | app.py:141-146 | the bucket counts add up to at most the number of values |
| Buckets.NoValuesNoCounts | app.py:140-143 | with no present value every bucket count is 0, as the zero series gives |
| Records.DeriveRecord | app.py:84-129 | every derived record has relapse year 2025 exactly when relapsed, is deceased whenever a death date is known, and has a treatment time exactly when a consult date is known, never negative; absent columns give missing values |
| Records.CellAt | app.py:175-177 | the GENERO cell of a row when that column exists, and a missing value when it does not, so no record then matches F or M |
| Records.DeathDateOf | app.py:96-101 | `Data_Obito_Valida`: a known death date comes only from a date-form column, and makes the record deceased |
| Records.IsDeceasedOf | app.py:98-109 | `Is_Obito`, characterised by `Records.DeathFromDateColumn`, `Records.DeathFromFlagColumn` and `Records.NoDeathColumns` |
| Records.DeathFromDateColumn | app.py:98-101 | with a date-form column, the first one gives the death date, and the record is deceased if and only if that date parses |
| Records.FlagColumnFound | app.py:94-102 | without a date-form column, the death source is the first flag-form column |
| Records.DeathFromFlagColumn | app.py:102-107 | with only a flag-form column, the record is deceased if and only if its stripped cell is S or SIM in any case, and no death date is known |
| Records.NoDeathColumns | app.py:108-109 | without either kind of death column no record is deceased |
| Records.RelapseFlag | app.py:112-119 | relapsed if and only if the first relapse column's stripped cell is S or SIM in any case, false without such a column; relapse year 2025 if and only if relapsed |
| Records.TreatmentTimeOfRow | app.py:27-45 | without the consult column the treatment time is missing; with it, the treatment time is that of the consult cell and the record's death date |
| Records.StageOfRow | app.py:125-130 | the stage is the cleaned text of the first staging column for Linfomas, and missing otherwise |
| Records.DeriveRows | app.py:84-129 | one record per row, in row order, each the derivation of its row |
| Records.Enrich | app.py:80-130 | discovery over the stripped header, then one derived record per row, in order |
| Summary.BinsIncreasing | app.py:138-149 | the age and time bin edges increase strictly, as `pd.cut` requires |
| Summary.AppendBucketEntries | app.py:145-157 | the label loop appends one entry per label, named `prefix (label)`, holding its count, and keeps the entries before it |
| Summary.BucketCounts | app.py:140-154 | both branches, `cut` and `value_counts` or the zero series, give the occurrence count of every bucket |
| Summary.CreateSummaryRow | app.py:134-171 | the row holds, in order: label, Total, the five age and four time buckets, the stage counts for staging only, the deaths and the 2025 relapses |
| Summary.Describes | app.py:134-171 | the finished `data` dictionary entry by entry; established by `Summary.CreateSummaryRow` and used by `Summary.BucketsWithinTotal` and `Summary.StageColumnsOnlyWithStaging` |
| Summary.Ages | app.py:140-141 | the `Idade` column of a cohort: one value per record, in order, each that record's age |
| Summary.Times | app.py:151-152 | the `Tempo_Anos` column of a cohort: one value per record, in order, each that record's treatment time |
| Summary.AnyDefined | app.py:140 | `.notna().any()`, the test that selects `Buckets.CutAll` over the zero series in `Summary.BucketCounts`, here and at app.py:151 |
| Summary.BucketKey | app.py:146 | the key `prefix (label)`, also built at app.py:157; its entries are fixed by `Summary.AppendBucketEntries` |
| Summary.StageKey | app.py:162-165 | the keys `Est. I` to `Est. IV`; characterised by `Summary.StageColumnsOnlyWithStaging` |
| Summary.CountWhere | app.py:168-169 | the number of records of the cohort that pass the test, never more than the cohort |
| Summary.CountStage | app.py:161-165 | the number of records of the cohort at one stage, never more than the cohort |
| Summary.StageCountsWithinTotal | app.py:160-165 | the four stage entries together add up to at most Total |
| Summary.Cohort | app.py:176-177 | holds only records of the table whose GENERO cell is exactly the letter, holds every such record, and holds each as many times as the table does |
| Summary.CohortOfConcat | app.py:176-177 | the filter keeps row order: the cohort of two consecutive parts of the table is the cohort of the first followed by the cohort of the second |
| Summary.CohortOfOne | app.py:176-177 | a single record is kept exactly when its GENERO cell is the letter |
| Summary.BuildRows | app.py:173-181 | F then M when GENERO exists, then Total over all records, each row describing its cohort |
| Summary.GenerateReport | app.py:80-181 | the whole report: records derived from every row, then 3 rows with GENERO and 1 row without, staging columns for Linfomas with an Estadiamento column only |
| Summary.SumCountsOfBuckets | app.py:145-157 | the bucket entries of a row add up to the sum of the bucket counts |
| Summary.BucketsWithinTotal | app.py:138-157 | in every row the age buckets add up to at most Total, and so do the time buckets |
| Summary.NoAgesZeroBuckets | app.py:140-146 | a cohort with no age has every age bucket at 0 |
| Summary.RelapseYearCountsRelapsed | app.py:119 | the records with relapse year 2025 are exactly the relapsed ones |
| Summary.RelapseEntryCountsRelapsed | app.py:169 | the "2025 (Recidiva)" entry equals the number of relapsed records of the cohort |
| Summary.StageColumnsOnlyWithStaging | app.py:160-165 | the row has an "Est. I" entry if and only if staging is on |
| Summary.AgeBucketBoundaries | app.py:138-141 | 20 is in "≤20" and 80 in "61-80"; 20.5 and 80.5 are in the next bucket; 150 is in ">80"; 0, -3, 150.5 and a missing age are in none; the general rule is `Buckets.Cut` |
| Summary.TimeLandsInBucket | app.py:149-152 | a derived treatment time is in some time bucket if and only if it is at most 100 years |
| Summary.CohortsWithinTable | app.py:176-177 | the F and M cohorts together hold at most all records |

## Left out

- The Streamlit interface is not modelled (app.py:7-17, 48-65, 179, 187-201). This covers page setup, styling, the sidebar, the uploader, warnings, errors, the displayed table and the CSV download. It is presentation only.
- File reading is not modelled (app.py:70-77). This covers the CSV reader with its `;`/Latin-1 retry and the Excel reader. The model starts from a `Table` of header names and cells. The header offsets 7 and 2 (app.py:59-62) only feed the reader and are not modelled.
- Date and number parsing are parameters (app.py:86, 89, 100). `pd.to_datetime` and `pd.to_numeric` are library routines. Column-wide date-format inference is not modelled: each cell is parsed on its own.
- Time of day is not modelled. Parsed timestamps are whole days, so `.days` is a difference of day numbers.
- Floating point is not modelled. Durations and ages are exact `real` numbers, so `/ 365.25` and the bucket edges carry no rounding.
- The blanket `except` clauses are not modelled (app.py:44-45, 196-198). With typed inputs every modelled operation is total.
- Duplicate column names are not modelled. With duplicates pandas returns several columns for one name; the model uses the first.
- Character classes beyond Latin-1 are not modelled. Whitespace, `\w` and case mapping follow Python for U+0000 to U+00FF; any character above U+00FF is accepted as input but treated as neither whitespace nor a word character, and its case is left unchanged. So "IIα" gives stage II in the model though Python reads α as a word character and finds none, and "S" followed by a thin space (U+2009) is not affirmative though Python strips that space. The upper-case forms of ß ("SS"), ÿ and µ fall outside that range and are not modelled: these three characters stay unchanged. Unicode normalisation is not modelled either.
- Cells are text or missing. In the source, a numeric cell read from a spreadsheet could reach `str()`, the `GENERO` equality or a flag test as a number; the model does not cover that.
- `Records.Enrich` derives all values of a row together. The source instead assigns each derived column to the whole table in turn. The names the source adds before later searches do not change those searches; `Columns.RelapseSearchIgnoresDerived` and `Columns.StageSearchIgnoresDerived` prove this.
- The final data frame is not modelled (app.py:184-186). This covers `pd.DataFrame(rows)`, `set_index('Gênero')` and the export, which only arrange the finished rows for display.
