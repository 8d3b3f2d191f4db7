# Dengue cases and rainfall per state and month — a Dafny model

`main.py` is an Apache Beam batch job. It reads two text files:

- a `|`-separated file of dengue notifications, one line per notification, with the columns
  `id, data_iniSE, casos, ibge_code, cidade, uf, cep, latitude, longitude`;
- a `,`-separated file of rainfall measurements, `data, mm, uf`.

Both branches build the same join key, `UF-ANO-MES` (state code, then the first two
`-`-separated components of the date). The dengue branch groups the notifications by
state, emits one `(key, cases)` pair per notification (an empty count is 0) and sums per
key. The rainfall branch clamps negative volumes to 0, sums per key and rounds each sum.
The two aggregates are co-grouped by key. Keys missing on either side are dropped. Each
surviving key is split back into state, year and month, and the row
`uf;ano;mes;chuva;dengue` is written.

The project models this record-to-row logic and the composition of the job:

- `errors.dfy` (`Errors`): the Python exceptions the record functions raise
  (`KeyError`, wrong-arity unpacking, `ValueError` from `float`, `IndexError`). It also
  gives the all-or-nothing meaning of a `Map` / `FlatMap` step over a whole collection
  (`Traverse`, `FlatTraverse`).
- `text.dfy` (`Text`): `str.split` and `str.join` for a one-character separator, with
  both round trips.
- `beam.dfy` (`Beam`): `GroupByKey`, `CombinePerKey(sum)`, `CoGroupByKey` over two tagged
  inputs, and `Filter`, as functions over sequences of `(key, value)` pairs. It also proves
  that summation per key does not depend on the order in which the pairs arrive.
- `records.dfy` (`Records`): the record functions of `main.py`, one member each, with two
  exceptions. `texto_para_lista` is `Text.Split`. `arrendonda` is the parameter `round1`,
  applied to every aggregate value by `Beam.MapValues` in `Pipeline.RainPipeline`. `casos_dengue`
  is both a specification function (`DengueCases`) and the loop the source runs
  (`CasosDengue`), proved equal.
- `pipeline.dfy` (`Pipeline`): the dengue branch, the rainfall branch, the join and the
  whole job (`Run`). These carry the end-to-end theorems:
  - each branch is a sum per key of what its lines contribute one by one;
  - the output has exactly one line per key present in both datasets: every such key gets
    its line, and no key gets two;
  - each such line holds the key's parts, the rounded rainfall total and the case total.

`float(...)`, `str(...)` and `round(..., 1)` are foreign conversions. They enter as the
function parameters `parse: string -> Option<real>`, `show: real -> string` and
`round1: real -> real`. Measures are exact `real`s.

## Model

| member | source | states |
|---|---|---|
| Text.Split | main.py:23-28 | `split` always yields at least one piece (so `""` gives `[""]`) |
| Text.SplitClean | main.py:23-28 | no piece of a split contains the separator |
| Text.SplitSingle | main.py:23-28 | a string splits into the single piece `[s]` exactly when it has no separator |
| Text.JoinSplit | main.py:23-28 | joining the pieces of a split with the same separator gives back the original line, for every line |
| Text.SplitJoinExactly | main.py:23-28 | splitting a join gives back the pieces exactly when there is at least one piece and no piece contains the separator |
| Records.ListToDictKeys | main.py:31-36 | the keys of `dict(zip(colunas, elemento))` are exactly the first `min(|colunas|, |elemento|)` column names; surplus columns or fields are ignored |
| Records.ListToDictAt | main.py:31-36 | a column maps to the field at its own position when no later zipped column repeats its name |
| Records.DiseaseRecordFields | main.py:10-20 | with the nine disease columns, each of the first `min(9, n)` columns maps to its own field and the remaining columns are absent |
| Records.YearMonthParts | main.py:44 | the year-month is a prefix of the date whose `-`-components are the date's first two (or its only one); it has two components exactly when the date contains `-` |
| Records.YearMonthEqual | main.py:44 | two dates give the same year-month exactly when their first two components agree |
| Records.AddYearMonth | main.py:39-45 | `trata_datas` fails with `KeyError('data_iniSE')` exactly when the field is absent; otherwise it adds `ano_mes` holding the year-month of `data_iniSE` and leaves every other field unchanged |
| Records.GroupKeyPrefix | main.py:48-54 | for a record that contributes a pair, the state group `chave_uf` puts it in is its `uf` field, and that state is the first `-`-component of the key the record is summed under (when the state has no `-`) |
| Records.CaseEmission | main.py:63-67 | one iteration of `casos_dengue`: it fails on a missing `casos`, then on a missing `ano_mes`, then on an unparsable count; the key is `uf-ano_mes`; an empty count gives 0.0 and any other gives the parsed number |
| Records.DengueCases | main.py:57-67 | the group succeeds exactly when every record does; then it yields one pair per record, in the group's order, each with key `uf-ano_mes`, 0.0 for an empty count and the parsed number otherwise |
| Records.CasosDengue | main.py:57-67 | the loop over the group's records yields exactly what `DengueCases` specifies, including which failure aborts it |
| Records.RainKeyValue | main.py:70-82 | `chave_uf_ano_mes_de_lista` fails with an unpacking error unless there are exactly three fields, and with `ValueError` when the volume does not parse; the key is `uf-` plus the year-month of `data`; the volume is never negative, equal to the parsed `mm` when that is ≥ 0 and 0 otherwise |
| Records.KeyParts | main.py:77 | for state codes without `-`, two keys `uf-rest` are equal exactly when the state codes and the rests are equal |
| Records.DiseaseEmissionFields | main.py:39-67 | one disease record through `trata_datas`, `chave_uf` and `casos_dengue` fails first on `data_iniSE`, then `uf`, then `casos`; on success its key is `uf-` plus the year-month of `data_iniSE` |
| Records.KeysAgree | main.py:44-77 | key agreement: a disease record and a rainfall line with the same state and a date with the same first two components get byte-identical keys; for state codes without `-` equal keys also imply equal state and year-month |
| Pipeline.BothPresentMeansCommon | main.py:94-103 | for an entry of the co-grouping, `filtra_campos_vazios` keeps it exactly when its key occurs in both the rainfall aggregate and the dengue aggregate |
| Records.Unpack | main.py:106-115 | `descompactar_elementos` fails with `IndexError` on an empty `chuvas` list, then on an empty `dengue` list, then with an unpacking error unless the key splits into exactly three parts; on success the three `-`-free parts join back to the key, and the values are `str` of the first rainfall and first dengue values |
| Records.UnpackFields | main.py:114-115 | an unpacked row is the key's three parts followed by the two displayed values |
| Records.UnpackJoinKey | main.py:106-115 | for a key built as `uf-ano_mes`, unpacking succeeds exactly when `uf` has no `-` and the date has at least two components, or in the degenerate case of a `uf` with one `-` and a date with none; in the regular case the row holds the state, the year and the month |
| Records.ToCsv | main.py:118-123 | splitting the `;`-joined line on `;` gives back the fields exactly when there is at least one field and none contains `;` |
| Errors.Traverse | main.py:130-133 | a `Map` step over a collection succeeds exactly when every element does; it then yields one result per element in order; otherwise it fails with the first element's failure |
| Beam.GroupByKey | main.py:134 | one group per key of the input, each key once, holding all of that key's values in input order (never empty) |
| Beam.GroupThenExpand | main.py:134-135 | grouping by key and fanning the groups out again gives the input pairs, reordered (the same multiset) |
| Beam.CombinePerKey | main.py:136 | one entry per key of the input, each key once, holding the sum of that key's values |
| Beam.SumOfPermutation | main.py:136 | the sum per key does not depend on the order of the pairs |
| Beam.CombinePerKeyPermutation | main.py:136 | `CombinePerKey(sum)` over any reordering of the pairs has the same keys, and each of its entries holds the sum the other order gives that key |
| Beam.SumOfNonNegative | main.py:147 | sums of non-negative values are non-negative |
| Beam.MapValues | main.py:148 | `arrendonda` over the aggregate changes the values only: the same keys, still each key once |
| Beam.CoGroupByKey | main.py:161-162 | one entry per key of either input, each key once, holding the key's values from the `chuvas` input and from the `dengue` input |
| Beam.Filter | main.py:163 | an element is in the output exactly when it is in the input and satisfies the predicate; the output is no longer than the input |
| Beam.FilterMultiset | main.py:163 | each element satisfying the predicate occurs in the output as often as in the input, every other element not at all |
| Beam.FilterUniqueKeys | main.py:163 | filtering keeps each key at most once |
| Pipeline.TwoPhaseAggregation | main.py:133-136 | grouping by state, fanning out and summing per key fails exactly when some record fails on its own, and otherwise gives each key once with the sum of the per-record values |
| Pipeline.DiseaseLineKey | main.py:130-135 | one disease line contributes exactly when it has at least six fields and an empty or numeric `casos`; its key is field 6, `-`, then the year-month of field 2 |
| Pipeline.DengueSumPerKey | main.py:126-138 | the dengue branch fails exactly when some line fails on its own; otherwise it gives each key of the lines once, holding the sum of those lines' case counts |
| Pipeline.RainSumPerKey | main.py:141-150 | the rainfall branch fails exactly when some line lacks three fields or a numeric volume; otherwise it gives each key of the lines once, holding the rounded sum of the clamped volumes, a sum that is never negative |
| Pipeline.JoinKeepsCommonKeys | main.py:161-163 | after co-grouping and filtering, the surviving keys are exactly those of both aggregates, each once |
| Pipeline.JoinedSingleValues | main.py:161-163 | with one entry per key on each side, every surviving entry carries exactly one rainfall value and one dengue value of its key |
| Pipeline.CommonPairsJoined | main.py:161-163 | with one entry per key on each side, every rainfall entry and dengue entry sharing a key survive together |
| Pipeline.JoinRowsOk | main.py:161-165 | the join succeeds exactly when every common key splits into three parts, and then writes one line per common key |
| Pipeline.JoinRowsLines | main.py:161-165 | with one entry per key on each side, the lines follow the surviving keys one to one: the keys are pairwise distinct, there are as many lines as keys, and each line is the `;`-join of its key's three parts, that key's rainfall value and its dengue value |
| Pipeline.JoinRowsCovers | main.py:161-165 | conversely, every rainfall entry and dengue entry sharing a key get a line holding that key and their two values |
| Pipeline.RunOk | main.py:126-168 | the whole job succeeds exactly when every disease line and every rainfall line succeeds on its own and every key built on both sides splits into three parts |
| Pipeline.RunOutput | main.py:126-168 | the job writes as many lines as there are keys that both some disease line and some rainfall line produce; the lines belong to pairwise distinct such keys, and each holds its key's parts, `str` of the rounded rainfall total and `str` of the case total |
| Pipeline.RunCoversCommonKeys | main.py:126-168 | conversely, every key that both some disease line and some rainfall line produce has its line among the output |

## Left out

- Reading the files (`ReadFromText`, including skipping the header line) is not modelled: each branch starts from the lines after the header.
- Writing the result (`WriteToText`), its header `UF;ANO;MES;CHUVA;DENGUE` and the output file naming are not modelled.
- `PipelineOptions`, `beam.Pipeline` and `pipeline.run()` are framework calls with no effect on the computed rows.
- Parallel and distributed execution are not modelled. Beam leaves the order of groups and of output lines unspecified. The model fixes one order: a key's group comes at its last occurrence, values keep input order. The theorems about sums and key sets hold for any order (`Beam.CombinePerKeyPermutation`, from `Beam.SumOfPermutation` and `Beam.KeysOfPermutation`); the exact line order is not a promise of the source.
- `float(...)` parsing and `str(...)` of a float are foreign conversions. They are the parameters `parse` and `show`, with no properties assumed.
- `round(mm, 1)` in `arrendonda` depends on binary floating point. It is the parameter `round1`; the model states only that keys are untouched.
- Floating-point summation error is not modelled: sums are exact over `real`.
- The commented-out "Metodo 1" (`Flatten` then `GroupByKey`) and the commented `print` steps are dead code.
- In-place mutation by `trata_datas` is modelled as a map update returning the new record. Nothing else holds the dictionary, so the aliasing is not observable.
- `casos_dengue` also tests `registro['casos'] == None`. Record values come from `str.split`, so they are never `None`; the model has only the empty-string test.
- The loop of `Records.CasosDengue` checks `ano_mes` together with `casos` before the empty test. The source reads `ano_mes` in both branches of its `if`, so the outcome is the same.
- Failure choice in `Pipeline.Run`: when several lines or both branches fail, a real run reports whichever failure Beam meets first. The model checks the dengue branch before the rainfall branch. The rainfall branch reports its first failing line in input order. The dengue branch runs each step over all lines before the next: it reports the first line lacking `data_iniSE`, else the first lacking `uf`, else the first `casos` failure in the order of the state groups (a group sits at the last occurrence of its state), so this need not be the first line that fails on its own. Whether the job fails does not depend on this choice.
- Disease counts are not clamped. A parsed negative `casos` is summed as it is, because the code clamps only rainfall volumes (main.py:78-81). Descriptions of the job that call every measure non-negative are stricter than the code.
