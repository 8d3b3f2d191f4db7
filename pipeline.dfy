/** The Beam job of `main.py` as a composition of pure functions: the dengue
    branch (parse, add `ano_mes`, key by state, group by state, fan out one
    pair per record, sum per key), the rainfall branch (parse, key, sum per
    key, round) and their join (co-group, drop keys missing on either side,
    unpack, format). Reading the files, writing the result with its header and
    running the job are outside the model. */
module Pipeline {
  import opened Errors
  import opened Text
  import opened Beam
  import opened Records

  // ---- The dengue branch ----

  /** `texto_para_lista` with `|` and `lista_para_dicionario` with the
      disease schema, for every line. */
  function DiseaseRecords(lines: seq<string>): seq<Record>
  {
    seq(|lines|, i requires 0 <= i < |lines| => ListToDict(Split(lines[i], '|'), Columns))
  }

  function GroupStep(parse: string -> Option<real>): ((string, seq<Record>)) -> Result<seq<(string, real)>>
  {
    (g: (string, seq<Record>)) => DengueCases(g.0, g.1, parse)
  }

  function CaseStep(parse: string -> Option<real>): ((string, Record)) -> Result<(string, real)>
  {
    (p: (string, Record)) => CaseEmission(p.0, p.1, parse)
  }

  /** From the records keyed by state: `GroupByKey`, `FlatMap(casos_dengue)`,
      `CombinePerKey(sum)`. */
  function DengueAggregate(keyed: seq<(string, Record)>, parse: string -> Option<real>): Result<seq<(string, real)>>
  {
    match FlatTraverse(GroupByKey(keyed), GroupStep(parse))
    case Err(e) => Err(e)
    case Ok(emitted) => Ok(CombinePerKey(emitted))
  }

  /** The whole dengue branch, from the lines after the header. */
  function DenguePipeline(lines: seq<string>, parse: string -> Option<real>): Result<seq<(string, real)>>
  {
    match Traverse(DiseaseRecords(lines), AddYearMonth)
    case Err(e) => Err(e)
    case Ok(dated) =>
      match Traverse(dated, KeyByState)
      case Err(e) => Err(e)
      case Ok(keyed) => DengueAggregate(keyed, parse)
  }

  /** What one disease line contributes when taken on its own. */
  function DiseaseLineStep(parse: string -> Option<real>): string -> Result<(string, real)>
  {
    line => DiseaseEmission(ListToDict(Split(line, '|'), Columns), parse)
  }

  /** Running each state group's records in turn is running every record of
      the fanned-out groups in turn. */
  lemma {:induction false} TraversePairs(k: string, recs: seq<Record>, parse: string -> Option<real>)
    ensures Traverse(Pairs(k, recs), CaseStep(parse)) == Traverse(recs, CaseStepIn(k, parse))
    decreases |recs|
  {
    if recs != [] {
      TraversePairs(k, recs[1..], parse);
      assert Pairs(k, recs)[1..] == Pairs(k, recs[1..]);
    }
  }

  lemma {:induction false} FanOutIsExpand(gs: seq<(string, seq<Record>)>, parse: string -> Option<real>)
    ensures FlatTraverse(gs, GroupStep(parse)) == Traverse(Expand(gs), CaseStep(parse))
    decreases |gs|
  {
    if gs != [] {
      FanOutIsExpand(gs[1..], parse);
      TraversePairs(gs[0].0, gs[0].1, parse);
      TraverseAppend(Pairs(gs[0].0, gs[0].1), Expand(gs[1..]), CaseStep(parse));
    }
  }

  /** Grouping by state first and fanning out afterwards sums the same
      records per key as emitting one pair per record directly would: the
      branch fails exactly when some record fails, and otherwise gives one
      entry per key holding the sum of that key's per-record values. */
  lemma TwoPhaseAggregation(keyed: seq<(string, Record)>, parse: string -> Option<real>)
    ensures DengueAggregate(keyed, parse).Ok? <==> Traverse(keyed, CaseStep(parse)).Ok?
    ensures DengueAggregate(keyed, parse).Ok? ==>
              var agg, direct := DengueAggregate(keyed, parse).value, Traverse(keyed, CaseStep(parse)).value;
              UniqueKeys(agg) && KeysOf(agg) == KeysOf(direct)
              && forall i :: 0 <= i < |agg| ==> agg[i].1 == SumOf(direct, agg[i].0)
  {
    var gs := GroupByKey(keyed);
    FanOutIsExpand(gs, parse);
    GroupThenExpand(keyed);
    TraverseOkPermutation(Expand(gs), keyed, CaseStep(parse));
    if Traverse(keyed, CaseStep(parse)).Ok? {
      TraversePermutation(Expand(gs), keyed, CaseStep(parse));
      var emitted, direct := Traverse(Expand(gs), CaseStep(parse)).value, Traverse(keyed, CaseStep(parse)).value;
      KeysOfPermutation(emitted, direct);
      forall k | true ensures SumOf(emitted, k) == SumOf(direct, k) {
        SumOfPermutation(emitted, direct, k);
      }
    }
  }

  /** Sum per key for the dengue branch: it fails exactly when some line
      fails on its own, and otherwise yields one entry per key that some line
      produces, holding the sum of the values of the lines with that key. */
  lemma DengueSumPerKey(lines: seq<string>, parse: string -> Option<real>)
    ensures DenguePipeline(lines, parse).Ok? <==> Traverse(lines, DiseaseLineStep(parse)).Ok?
    ensures DenguePipeline(lines, parse).Ok? ==>
              var agg, direct := DenguePipeline(lines, parse).value, Traverse(lines, DiseaseLineStep(parse)).value;
              UniqueKeys(agg) && KeysOf(agg) == KeysOf(direct)
              && forall i :: 0 <= i < |agg| ==> agg[i].1 == SumOf(direct, agg[i].0)
  {
    var recs := DiseaseRecords(lines);
    var dating := Traverse(recs, AddYearMonth);
    if dating.Err? {
      DatingFails(lines, parse);
    } else if Traverse(dating.value, KeyByState).Err? {
      KeyingFails(lines, dating.value, parse);
    } else {
      var keyed := Traverse(dating.value, KeyByState).value;
      KeyedIsLines(lines, dating.value, keyed, parse);
      TwoPhaseAggregation(keyed, parse);
    }
  }

  lemma DatingFails(lines: seq<string>, parse: string -> Option<real>)
    requires Traverse(DiseaseRecords(lines), AddYearMonth).Err?
    ensures Traverse(lines, DiseaseLineStep(parse)).Err?
  {
    var recs := DiseaseRecords(lines);
    var i :| 0 <= i < |recs| && AddYearMonth(recs[i]).Err?;
    assert DiseaseLineStep(parse)(lines[i]).Err?;
  }

  lemma KeyingFails(lines: seq<string>, dated: seq<Record>, parse: string -> Option<real>)
    requires Traverse(DiseaseRecords(lines), AddYearMonth) == Ok(dated)
    requires Traverse(dated, KeyByState).Err?
    ensures Traverse(lines, DiseaseLineStep(parse)).Err?
  {
    var i :| 0 <= i < |dated| && KeyByState(dated[i]).Err?;
    assert dated[i] == AddYearMonth(DiseaseRecords(lines)[i]).value;
    assert DiseaseLineStep(parse)(lines[i]).Err?;
  }

  lemma KeyedIsLines(lines: seq<string>, dated: seq<Record>, keyed: seq<(string, Record)>, parse: string -> Option<real>)
    requires Traverse(DiseaseRecords(lines), AddYearMonth) == Ok(dated)
    requires Traverse(dated, KeyByState) == Ok(keyed)
    ensures DenguePipeline(lines, parse) == DengueAggregate(keyed, parse)
    ensures Traverse(keyed, CaseStep(parse)) == Traverse(lines, DiseaseLineStep(parse))
  {
    var recs := DiseaseRecords(lines);
    forall i | 0 <= i < |keyed| ensures CaseStep(parse)(keyed[i]) == DiseaseLineStep(parse)(lines[i]) {
      assert dated[i] == AddYearMonth(recs[i]).value;
      assert keyed[i] == KeyByState(dated[i]).value;
    }
    TraversePointwise(keyed, lines, CaseStep(parse), DiseaseLineStep(parse));
  }

  /** What a single disease line contributes: the line needs at least the
      six fields up to `uf`; its key is `uf-` followed by the year-month of
      `data_iniSE`; an empty `casos` counts as 0 and any other must parse. */
  lemma DiseaseLineKey(line: string, parse: string -> Option<real>)
    ensures var fields := Split(line, '|');
            DiseaseLineStep(parse)(line).Ok?
            <==> |fields| >= 6 && (fields[2] == "" || parse(fields[2]).Some?)
    ensures var fields, r := Split(line, '|'), DiseaseLineStep(parse)(line);
            r.Ok? ==>
              |fields| >= 6
              && r.value.0 == fields[5] + "-" + YearMonth(fields[1])
              && (fields[2] == "" ==> r.value.1 == 0.0)
              && (fields[2] != "" ==> parse(fields[2]) == Some(r.value.1))
  {
    var fields := Split(line, '|');
    var rec := ListToDict(fields, Columns);
    DiseaseRecordFields(fields);
    DiseaseEmissionFields(rec, parse);
    assert Columns[1] == "data_iniSE" && Columns[2] == "casos" && Columns[5] == "uf";
    if |fields| >= 6 {
      assert rec["data_iniSE"] == fields[1] && rec["casos"] == fields[2] && rec["uf"] == fields[5];
    } else {
      assert "uf" !in rec;
    }
  }

  // ---- The rainfall branch ----

  function RainLineStep(parse: string -> Option<real>): string -> Result<(string, real)>
  {
    line => RainKeyValue(Split(line, ','), parse)
  }

  /** `texto_para_lista` with `,`, `chave_uf_ano_mes_de_lista`,
      `CombinePerKey(sum)`, then `arrendonda` on each sum. */
  function RainPipeline(lines: seq<string>, parse: string -> Option<real>, round1: real -> real): Result<seq<(string, real)>>
  {
    match Traverse(lines, RainLineStep(parse))
    case Err(e) => Err(e)
    case Ok(pairs) => Ok(MapValues(CombinePerKey(pairs), round1))
  }

  /** Sum per key for the rainfall branch: it fails exactly when some line
      does not have three fields or its volume does not parse; otherwise there
      is one entry per key of the lines, holding the rounded sum of the
      clamped volumes of that key, a sum that is never negative. */
  lemma RainSumPerKey(lines: seq<string>, parse: string -> Option<real>, round1: real -> real)
    ensures RainPipeline(lines, parse, round1).Ok?
        <==> forall i :: 0 <= i < |lines| ==>
               |Split(lines[i], ',')| == 3 && parse(Split(lines[i], ',')[1]).Some?
    ensures RainPipeline(lines, parse, round1).Ok? ==>
              var agg, pairs := RainPipeline(lines, parse, round1).value, Traverse(lines, RainLineStep(parse)).value;
              UniqueKeys(agg) && KeysOf(agg) == KeysOf(pairs)
              && (forall i :: 0 <= i < |lines| ==>
                    pairs[i].0 == Split(lines[i], ',')[2] + "-" + YearMonth(Split(lines[i], ',')[0]))
              && forall i :: 0 <= i < |agg| ==>
                   SumOf(pairs, agg[i].0) >= 0.0 && agg[i].1 == round1(SumOf(pairs, agg[i].0))
  {
    RainLinesOk(lines, parse);
    if Traverse(lines, RainLineStep(parse)).Ok? {
      var pairs := Traverse(lines, RainLineStep(parse)).value;
      RainLineKeys(lines, parse);
      RainAggregate(pairs, round1);
    }
  }

  lemma RainLinesOk(lines: seq<string>, parse: string -> Option<real>)
    ensures Traverse(lines, RainLineStep(parse)).Ok?
        <==> forall i :: 0 <= i < |lines| ==>
               |Split(lines[i], ',')| == 3 && parse(Split(lines[i], ',')[1]).Some?
  {
    assert forall i :: 0 <= i < |lines| ==>
      (RainLineStep(parse)(lines[i]).Ok? <==> |Split(lines[i], ',')| == 3 && parse(Split(lines[i], ',')[1]).Some?);
  }

  lemma RainLineKeys(lines: seq<string>, parse: string -> Option<real>)
    requires Traverse(lines, RainLineStep(parse)).Ok?
    ensures var pairs := Traverse(lines, RainLineStep(parse)).value;
            (forall i :: 0 <= i < |lines| ==>
               pairs[i].0 == Split(lines[i], ',')[2] + "-" + YearMonth(Split(lines[i], ',')[0]))
            && forall i :: 0 <= i < |pairs| ==> pairs[i].1 >= 0.0
  {
    var pairs := Traverse(lines, RainLineStep(parse)).value;
    forall i | 0 <= i < |lines|
      ensures pairs[i].0 == Split(lines[i], ',')[2] + "-" + YearMonth(Split(lines[i], ',')[0])
      ensures pairs[i].1 >= 0.0
    {
      assert pairs[i] == RainLineStep(parse)(lines[i]).value;
    }
  }

  /** Summing non-negative volumes per key and rounding each sum. */
  lemma RainAggregate(pairs: seq<(string, real)>, round1: real -> real)
    requires forall i :: 0 <= i < |pairs| ==> pairs[i].1 >= 0.0
    ensures var agg := MapValues(CombinePerKey(pairs), round1);
            UniqueKeys(agg) && KeysOf(agg) == KeysOf(pairs)
            && forall i :: 0 <= i < |agg| ==>
                 SumOf(pairs, agg[i].0) >= 0.0 && agg[i].1 == round1(SumOf(pairs, agg[i].0))
  {
    forall k | true ensures SumOf(pairs, k) >= 0.0 {
      SumOfNonNegative(pairs, k);
    }
  }

  // ---- The join ----

  /** `CoGroupByKey` over `{'chuvas': ..., 'dengue': ...}` followed by
      `Filter(filtra_campos_vazios)`. */
  function JoinedGroups(chuvas: seq<(string, real)>, dengue: seq<(string, real)>): seq<(string, CoGroup<real>)>
  {
    Filter(CoGroupByKey(chuvas, dengue), BothPresent)
  }

  function UnpackStep(show: real -> string): ((string, CoGroup<real>)) -> Result<Row>
  {
    (g: (string, CoGroup<real>)) => Unpack(g, show)
  }

  /** `Map(descompactar_elementos)` then `Map(preparar_csv)`. */
  function JoinRows(chuvas: seq<(string, real)>, dengue: seq<(string, real)>, show: real -> string): Result<seq<string>>
  {
    match Traverse(JoinedGroups(chuvas, dengue), UnpackStep(show))
    case Err(e) => Err(e)
    case Ok(rows) => Ok(seq(|rows|, i requires 0 <= i < |rows| => ToCsv(rows[i].Fields())))
  }

  /** The surviving keys are exactly the keys of both aggregates, each once. */
  lemma JoinKeepsCommonKeys(chuvas: seq<(string, real)>, dengue: seq<(string, real)>)
    ensures KeysOf(JoinedGroups(chuvas, dengue)) == KeysOf(chuvas) * KeysOf(dengue)
    ensures UniqueKeys(JoinedGroups(chuvas, dengue))
  {
    FilterUniqueKeys(CoGroupByKey(chuvas, dengue), BothPresent);
    JoinedKeysInBoth(chuvas, dengue);
    BothKeysJoined(chuvas, dengue);
  }

  /** On a co-grouped entry, `filtra_campos_vazios` keeps exactly the keys
      present in both aggregates. */
  lemma BothPresentMeansCommon(chuvas: seq<(string, real)>, dengue: seq<(string, real)>, e: (string, CoGroup<real>))
    requires e in CoGroupByKey(chuvas, dengue)
    ensures BothPresent(e) <==> e.0 in KeysOf(chuvas) && e.0 in KeysOf(dengue)
  {
    var cg := CoGroupByKey(chuvas, dengue);
    var m :| 0 <= m < |cg| && cg[m] == e;
    ValuesOfPresent(chuvas, e.0);
    ValuesOfPresent(dengue, e.0);
  }

  /** The values `CoGroupByKey` then `Filter` give a surviving key. */
  lemma JoinedEntry(chuvas: seq<(string, real)>, dengue: seq<(string, real)>, n: nat)
    requires n < |JoinedGroups(chuvas, dengue)|
    ensures var e := JoinedGroups(chuvas, dengue)[n];
            e.1 == CoGroup(ValuesOf(chuvas, e.0), ValuesOf(dengue, e.0))
            && |e.1.left| > 0 && |e.1.right| > 0
  {
    var cg := CoGroupByKey(chuvas, dengue);
    var e := JoinedGroups(chuvas, dengue)[n];
    assert e in cg && BothPresent(e);
    var m :| 0 <= m < |cg| && cg[m] == e;
  }

  lemma JoinedKeysInBoth(chuvas: seq<(string, real)>, dengue: seq<(string, real)>)
    ensures KeysOf(JoinedGroups(chuvas, dengue)) <= KeysOf(chuvas) * KeysOf(dengue)
  {
    var joined := JoinedGroups(chuvas, dengue);
    forall k | k in KeysOf(joined) ensures k in KeysOf(chuvas) && k in KeysOf(dengue) {
      var n :| 0 <= n < |joined| && joined[n].0 == k;
      JoinedEntry(chuvas, dengue, n);
      ValuesOfPresent(chuvas, k);
      ValuesOfPresent(dengue, k);
    }
  }

  lemma BothKeysJoined(chuvas: seq<(string, real)>, dengue: seq<(string, real)>)
    ensures KeysOf(chuvas) * KeysOf(dengue) <= KeysOf(JoinedGroups(chuvas, dengue))
  {
    forall k | k in KeysOf(chuvas) && k in KeysOf(dengue) ensures k in KeysOf(JoinedGroups(chuvas, dengue)) {
      CommonKeyJoined(chuvas, dengue, k);
    }
  }

  lemma CommonKeyJoined(chuvas: seq<(string, real)>, dengue: seq<(string, real)>, k: string)
    requires k in KeysOf(chuvas) && k in KeysOf(dengue)
    ensures k in KeysOf(JoinedGroups(chuvas, dengue))
  {
    var cg := CoGroupByKey(chuvas, dengue);
    var joined := JoinedGroups(chuvas, dengue);
    assert k in KeysOf(cg);
    var m :| 0 <= m < |cg| && cg[m].0 == k;
    BothPresentMeansCommon(chuvas, dengue, cg[m]);
    assert cg[m] in joined;
    var n :| 0 <= n < |joined| && joined[n] == cg[m];
  }

  /** With one entry per key on each side, every surviving entry carries
      exactly one rainfall value and one disease value of its key. */
  lemma JoinedSingleValues(chuvas: seq<(string, real)>, dengue: seq<(string, real)>)
    requires UniqueKeys(chuvas) && UniqueKeys(dengue)
    ensures var joined := JoinedGroups(chuvas, dengue);
            forall n :: 0 <= n < |joined| ==>
              exists i, j :: 0 <= i < |chuvas| && 0 <= j < |dengue|
                && chuvas[i].0 == joined[n].0 && dengue[j].0 == joined[n].0
                && joined[n].1 == CoGroup([chuvas[i].1], [dengue[j].1])
  {
    var joined := JoinedGroups(chuvas, dengue);
    forall n | 0 <= n < |joined|
      ensures exists i, j :: 0 <= i < |chuvas| && 0 <= j < |dengue|
                && chuvas[i].0 == joined[n].0 && dengue[j].0 == joined[n].0
                && joined[n].1 == CoGroup([chuvas[i].1], [dengue[j].1])
    {
      var k := joined[n].0;
      JoinedEntry(chuvas, dengue, n);
      ValuesOfPresent(chuvas, k);
      ValuesOfPresent(dengue, k);
      var i :| 0 <= i < |chuvas| && chuvas[i].0 == k;
      var j :| 0 <= j < |dengue| && dengue[j].0 == k;
      ValuesOfUnique(chuvas, i);
      ValuesOfUnique(dengue, j);
    }
  }

  /** ... and every pair of entries sharing a key survives, with those two
      values. */
  lemma CommonPairsJoined(chuvas: seq<(string, real)>, dengue: seq<(string, real)>)
    requires UniqueKeys(chuvas) && UniqueKeys(dengue)
    ensures forall i, j :: 0 <= i < |chuvas| && 0 <= j < |dengue| && chuvas[i].0 == dengue[j].0 ==>
              (chuvas[i].0, CoGroup([chuvas[i].1], [dengue[j].1])) in JoinedGroups(chuvas, dengue)
  {
    var cg := CoGroupByKey(chuvas, dengue);
    forall i, j | 0 <= i < |chuvas| && 0 <= j < |dengue| && chuvas[i].0 == dengue[j].0
      ensures (chuvas[i].0, CoGroup([chuvas[i].1], [dengue[j].1])) in JoinedGroups(chuvas, dengue)
    {
      var k := chuvas[i].0;
      assert k in KeysOf(cg);
      var m :| 0 <= m < |cg| && cg[m].0 == k;
      ValuesOfUnique(chuvas, i);
      ValuesOfUnique(dengue, j);
      assert cg[m] == (k, CoGroup([chuvas[i].1], [dengue[j].1]));
      assert BothPresent(cg[m]);
    }
  }

  /** The join succeeds exactly when every key present on both sides splits
      into three parts; it then writes one line per such key. */
  lemma JoinRowsOk(chuvas: seq<(string, real)>, dengue: seq<(string, real)>, show: real -> string)
    ensures JoinRows(chuvas, dengue, show).Ok?
        <==> forall k :: k in KeysOf(chuvas) && k in KeysOf(dengue) ==> |Split(k, '-')| == 3
    ensures JoinRows(chuvas, dengue, show).Ok?
        ==> |JoinRows(chuvas, dengue, show).value| == |KeysOf(chuvas) * KeysOf(dengue)|
  {
    var joined := JoinedGroups(chuvas, dengue);
    JoinKeepsCommonKeys(chuvas, dengue);
    UniqueKeysCount(joined);
    UnpackAllOk(chuvas, dengue, show);
  }

  lemma UnpackAllOk(chuvas: seq<(string, real)>, dengue: seq<(string, real)>, show: real -> string)
    ensures Traverse(JoinedGroups(chuvas, dengue), UnpackStep(show)).Ok?
        <==> forall k :: k in KeysOf(chuvas) && k in KeysOf(dengue) ==> |Split(k, '-')| == 3
  {
    var joined := JoinedGroups(chuvas, dengue);
    JoinKeepsCommonKeys(chuvas, dengue);
    if forall k :: k in KeysOf(chuvas) && k in KeysOf(dengue) ==> |Split(k, '-')| == 3 {
      forall n | 0 <= n < |joined| ensures UnpackStep(show)(joined[n]).Ok? {
        JoinedEntry(chuvas, dengue, n);
        assert joined[n].0 in KeysOf(joined);
      }
    } else {
      var k :| k in KeysOf(chuvas) && k in KeysOf(dengue) && |Split(k, '-')| != 3;
      assert k in KeysOf(joined);
      var n :| 0 <= n < |joined| && joined[n].0 == k;
      assert UnpackStep(show)(joined[n]).Err?;
    }
  }

  /** One output line: the key's three parts, then the two values shown. */
  function CsvRow(k: string, chuva: real, dengue: real, show: real -> string): string
  {
    ToCsv(Split(k, '-') + [show(chuva), show(dengue)])
  }

  /** The keys of the surviving entries, in output order. */
  function JoinedKeys(chuvas: seq<(string, real)>, dengue: seq<(string, real)>): seq<string>
  {
    var joined := JoinedGroups(chuvas, dengue);
    seq(|joined|, n requires 0 <= n < |joined| => joined[n].0)
  }

  /** With one entry per key on each side, the output lines follow the
      surviving keys one to one: the keys are pairwise distinct, there is one
      line per key, and each line is the row of its key with that key's
      rainfall value and disease value. */
  lemma JoinRowsLines(chuvas: seq<(string, real)>, dengue: seq<(string, real)>, show: real -> string)
    requires UniqueKeys(chuvas) && UniqueKeys(dengue)
    requires JoinRows(chuvas, dengue, show).Ok?
    ensures var ks, lines := JoinedKeys(chuvas, dengue), JoinRows(chuvas, dengue, show).value;
            Distinct(ks) && |lines| == |ks|
            && forall n :: 0 <= n < |ks| ==>
                 exists i, j :: 0 <= i < |chuvas| && 0 <= j < |dengue|
                   && chuvas[i].0 == ks[n] && dengue[j].0 == ks[n]
                   && lines[n] == CsvRow(ks[n], chuvas[i].1, dengue[j].1, show)
  {
    var ks := JoinedKeys(chuvas, dengue);
    JoinedKeysDistinct(chuvas, dengue);
    forall n | 0 <= n < |ks|
      ensures exists i, j :: 0 <= i < |chuvas| && 0 <= j < |dengue|
                && chuvas[i].0 == ks[n] && dengue[j].0 == ks[n]
                && JoinRows(chuvas, dengue, show).value[n] == CsvRow(ks[n], chuvas[i].1, dengue[j].1, show)
    {
      JoinedLineValues(chuvas, dengue, show, n);
    }
  }

  /** The surviving keys are pairwise distinct and are exactly the common
      keys. */
  lemma JoinedKeysDistinct(chuvas: seq<(string, real)>, dengue: seq<(string, real)>)
    ensures var ks := JoinedKeys(chuvas, dengue);
            Distinct(ks) && |ks| == |JoinedGroups(chuvas, dengue)|
            && forall k :: k in ks <==> k in KeysOf(chuvas) && k in KeysOf(dengue)
  {
    var joined := JoinedGroups(chuvas, dengue);
    JoinKeepsCommonKeys(chuvas, dengue);
    KeysOfListed(joined, JoinedKeys(chuvas, dengue));
  }

  lemma JoinedLineValues(chuvas: seq<(string, real)>, dengue: seq<(string, real)>, show: real -> string, n: nat)
    requires UniqueKeys(chuvas) && UniqueKeys(dengue)
    requires JoinRows(chuvas, dengue, show).Ok?
    requires n < |JoinedKeys(chuvas, dengue)|
    ensures var ks := JoinedKeys(chuvas, dengue);
            n < |JoinRows(chuvas, dengue, show).value|
            && exists i, j :: 0 <= i < |chuvas| && 0 <= j < |dengue|
                 && chuvas[i].0 == ks[n] && dengue[j].0 == ks[n]
                 && JoinRows(chuvas, dengue, show).value[n] == CsvRow(ks[n], chuvas[i].1, dengue[j].1, show)
  {
    var e := JoinedGroups(chuvas, dengue)[n];
    JoinedLine(chuvas, dengue, show, n);
    JoinedEntry(chuvas, dengue, n);
    var i := SoleValue(chuvas, e.0);
    var j := SoleValue(dengue, e.0);
    assert JoinedKeys(chuvas, dengue)[n] == e.0;
  }

  /** The line written for the `n`-th surviving entry. */
  lemma JoinedLine(chuvas: seq<(string, real)>, dengue: seq<(string, real)>, show: real -> string, n: nat)
    requires JoinRows(chuvas, dengue, show).Ok?
    requires n < |JoinedGroups(chuvas, dengue)|
    ensures var e := JoinedGroups(chuvas, dengue)[n];
            n < |JoinRows(chuvas, dengue, show).value|
            && JoinRows(chuvas, dengue, show).value[n] == CsvRow(e.0, e.1.left[0], e.1.right[0], show)
  {
    var joined := JoinedGroups(chuvas, dengue);
    var rows := Traverse(joined, UnpackStep(show)).value;
    assert rows[n] == Unpack(joined[n], show).value;
    UnpackFields(joined[n], show);
  }

  /** ... and every rainfall entry and disease entry sharing a key get their
      line. */
  lemma JoinRowsCovers(chuvas: seq<(string, real)>, dengue: seq<(string, real)>, show: real -> string)
    requires UniqueKeys(chuvas) && UniqueKeys(dengue)
    requires JoinRows(chuvas, dengue, show).Ok?
    ensures var lines := JoinRows(chuvas, dengue, show).value;
            forall i, j :: 0 <= i < |chuvas| && 0 <= j < |dengue| && chuvas[i].0 == dengue[j].0 ==>
              exists n :: 0 <= n < |lines| && lines[n] == CsvRow(chuvas[i].0, chuvas[i].1, dengue[j].1, show)
  {
    var joined := JoinedGroups(chuvas, dengue);
    var lines := JoinRows(chuvas, dengue, show).value;
    CommonPairsJoined(chuvas, dengue);
    forall i, j | 0 <= i < |chuvas| && 0 <= j < |dengue| && chuvas[i].0 == dengue[j].0
      ensures exists n :: 0 <= n < |lines| && lines[n] == CsvRow(chuvas[i].0, chuvas[i].1, dengue[j].1, show)
    {
      var e := (chuvas[i].0, CoGroup([chuvas[i].1], [dengue[j].1]));
      assert e in joined;
      var n :| 0 <= n < |joined| && joined[n] == e;
      JoinedLine(chuvas, dengue, show, n);
    }
  }

  // ---- The whole job ----

  /** Both branches and their join, from the lines after each file's header.
      Beam runs the branches side by side; when both fail, the model reports
      the dengue branch's failure. */
  function Run(diseaseLines: seq<string>, rainLines: seq<string>, parse: string -> Option<real>,
               round1: real -> real, show: real -> string): Result<seq<string>>
  {
    match DenguePipeline(diseaseLines, parse)
    case Err(e) => Err(e)
    case Ok(dengue) =>
      match RainPipeline(rainLines, parse, round1)
      case Err(e) => Err(e)
      case Ok(chuvas) => JoinRows(chuvas, dengue, show)
  }

  /** The job succeeds exactly when every disease line and every rainfall line
      succeeds on its own and every key built on both sides splits into three
      parts. */
  lemma RunOk(diseaseLines: seq<string>, rainLines: seq<string>, parse: string -> Option<real>,
              round1: real -> real, show: real -> string)
    ensures Run(diseaseLines, rainLines, parse, round1, show).Ok?
        <==> Traverse(diseaseLines, DiseaseLineStep(parse)).Ok?
             && Traverse(rainLines, RainLineStep(parse)).Ok?
             && forall k :: k in KeysOf(Traverse(rainLines, RainLineStep(parse)).value)
                         && k in KeysOf(Traverse(diseaseLines, DiseaseLineStep(parse)).value)
                         ==> |Split(k, '-')| == 3
  {
    DengueSumPerKey(diseaseLines, parse);
    var rain := RainPipeline(rainLines, parse, round1);
    var dengue := DenguePipeline(diseaseLines, parse);
    if rain.Ok? && dengue.Ok? {
      var pairs := Traverse(rainLines, RainLineStep(parse)).value;
      assert KeysOf(rain.value) == KeysOf(pairs) by {
        RainSumPerKey(rainLines, parse, round1);
      }
      JoinRowsOk(rain.value, dengue.value, show);
    }
  }

  /** The job's output, given both aggregates: the join of the rainfall
      aggregate with the disease aggregate. */
  lemma RunIsJoin(diseaseLines: seq<string>, rainLines: seq<string>, parse: string -> Option<real>,
                  round1: real -> real, show: real -> string)
    requires Run(diseaseLines, rainLines, parse, round1, show).Ok?
    ensures DenguePipeline(diseaseLines, parse).Ok? && RainPipeline(rainLines, parse, round1).Ok?
    ensures Run(diseaseLines, rainLines, parse, round1, show)
         == JoinRows(RainPipeline(rainLines, parse, round1).value, DenguePipeline(diseaseLines, parse).value, show)
  {
  }

  /** The keys of the job's output lines, in output order. */
  function OutputKeys(diseaseLines: seq<string>, rainLines: seq<string>, parse: string -> Option<real>,
                      round1: real -> real): seq<string>
  {
    match DenguePipeline(diseaseLines, parse)
    case Err(_) => []
    case Ok(dengue) =>
      match RainPipeline(rainLines, parse, round1)
      case Err(_) => []
      case Ok(chuvas) => JoinedKeys(chuvas, dengue)
  }

  /** What the job writes: one line per key that both some disease line and
      some rainfall line produce. The lines belong to pairwise distinct keys,
      and each holds its key's state, year and month, the rounded rainfall
      total of that key and the sum of its case counts. */
  lemma RunOutput(diseaseLines: seq<string>, rainLines: seq<string>, parse: string -> Option<real>,
                  round1: real -> real, show: real -> string)
    requires Run(diseaseLines, rainLines, parse, round1, show).Ok?
    ensures Traverse(diseaseLines, DiseaseLineStep(parse)).Ok? && Traverse(rainLines, RainLineStep(parse)).Ok?
    ensures var out, ks := Run(diseaseLines, rainLines, parse, round1, show).value,
                           OutputKeys(diseaseLines, rainLines, parse, round1);
            var direct, pairs := Traverse(diseaseLines, DiseaseLineStep(parse)).value,
                                 Traverse(rainLines, RainLineStep(parse)).value;
            |out| == |KeysOf(pairs) * KeysOf(direct)|
            && Distinct(ks) && |ks| == |out|
            && forall n :: 0 <= n < |out| ==>
                 ks[n] in KeysOf(pairs) && ks[n] in KeysOf(direct)
                 && out[n] == CsvRow(ks[n], round1(SumOf(pairs, ks[n])), SumOf(direct, ks[n]), show)
  {
    RunIsJoin(diseaseLines, rainLines, parse, round1, show);
    DengueSumPerKey(diseaseLines, parse);
    RainSumPerKey(rainLines, parse, round1);
    var direct, pairs := Traverse(diseaseLines, DiseaseLineStep(parse)).value,
                         Traverse(rainLines, RainLineStep(parse)).value;
    var chuvas, dengue := RainPipeline(rainLines, parse, round1).value, DenguePipeline(diseaseLines, parse).value;
    AggregateLines(chuvas, dengue, pairs, direct, round1, show);
  }

  /** `RunOutput` one level down: the join of two aggregates whose entries
      hold the rounded rainfall sums of `pairs` and the case sums of
      `direct`. */
  lemma AggregateLines(chuvas: seq<(string, real)>, dengue: seq<(string, real)>,
                       pairs: seq<(string, real)>, direct: seq<(string, real)>,
                       round1: real -> real, show: real -> string)
    requires UniqueKeys(chuvas) && UniqueKeys(dengue)
    requires KeysOf(chuvas) == KeysOf(pairs) && KeysOf(dengue) == KeysOf(direct)
    requires forall i :: 0 <= i < |chuvas| ==> chuvas[i].1 == round1(SumOf(pairs, chuvas[i].0))
    requires forall j :: 0 <= j < |dengue| ==> dengue[j].1 == SumOf(direct, dengue[j].0)
    requires JoinRows(chuvas, dengue, show).Ok?
    ensures var out, ks := JoinRows(chuvas, dengue, show).value, JoinedKeys(chuvas, dengue);
            |out| == |KeysOf(pairs) * KeysOf(direct)|
            && Distinct(ks) && |ks| == |out|
            && forall n :: 0 <= n < |out| ==>
                 ks[n] in KeysOf(pairs) && ks[n] in KeysOf(direct)
                 && out[n] == CsvRow(ks[n], round1(SumOf(pairs, ks[n])), SumOf(direct, ks[n]), show)
  {
    var out := JoinRows(chuvas, dengue, show).value;
    JoinRowsOk(chuvas, dengue, show);
    JoinRowsLines(chuvas, dengue, show);
    JoinedKeysDistinct(chuvas, dengue);
    var ks := JoinedKeys(chuvas, dengue);
    forall n | 0 <= n < |out|
      ensures ks[n] in KeysOf(pairs) && ks[n] in KeysOf(direct)
      ensures out[n] == CsvRow(ks[n], round1(SumOf(pairs, ks[n])), SumOf(direct, ks[n]), show)
    {
      var i, j :| 0 <= i < |chuvas| && 0 <= j < |dengue| && chuvas[i].0 == ks[n] && dengue[j].0 == ks[n]
                  && out[n] == CsvRow(ks[n], chuvas[i].1, dengue[j].1, show);
    }
  }

  /** Every key that both some disease line and some rainfall line produce
      has its line in the output. */
  lemma RunCoversCommonKeys(diseaseLines: seq<string>, rainLines: seq<string>, parse: string -> Option<real>,
                            round1: real -> real, show: real -> string)
    requires Run(diseaseLines, rainLines, parse, round1, show).Ok?
    ensures Traverse(diseaseLines, DiseaseLineStep(parse)).Ok? && Traverse(rainLines, RainLineStep(parse)).Ok?
    ensures var out := Run(diseaseLines, rainLines, parse, round1, show).value;
            var direct, pairs := Traverse(diseaseLines, DiseaseLineStep(parse)).value,
                                 Traverse(rainLines, RainLineStep(parse)).value;
            forall k :: k in KeysOf(pairs) && k in KeysOf(direct) ==>
              exists n :: 0 <= n < |out|
                && out[n] == CsvRow(k, round1(SumOf(pairs, k)), SumOf(direct, k), show)
  {
    RunIsJoin(diseaseLines, rainLines, parse, round1, show);
    DengueSumPerKey(diseaseLines, parse);
    RainSumPerKey(rainLines, parse, round1);
    var direct, pairs := Traverse(diseaseLines, DiseaseLineStep(parse)).value,
                         Traverse(rainLines, RainLineStep(parse)).value;
    var chuvas, dengue := RainPipeline(rainLines, parse, round1).value, DenguePipeline(diseaseLines, parse).value;
    AggregateCovers(chuvas, dengue, pairs, direct, round1, show);
  }

  /** `RunCoversCommonKeys` one level down. */
  lemma AggregateCovers(chuvas: seq<(string, real)>, dengue: seq<(string, real)>,
                        pairs: seq<(string, real)>, direct: seq<(string, real)>,
                        round1: real -> real, show: real -> string)
    requires UniqueKeys(chuvas) && UniqueKeys(dengue)
    requires KeysOf(chuvas) == KeysOf(pairs) && KeysOf(dengue) == KeysOf(direct)
    requires forall i :: 0 <= i < |chuvas| ==> chuvas[i].1 == round1(SumOf(pairs, chuvas[i].0))
    requires forall j :: 0 <= j < |dengue| ==> dengue[j].1 == SumOf(direct, dengue[j].0)
    requires JoinRows(chuvas, dengue, show).Ok?
    ensures var out := JoinRows(chuvas, dengue, show).value;
            forall k :: k in KeysOf(pairs) && k in KeysOf(direct) ==>
              exists n :: 0 <= n < |out|
                && out[n] == CsvRow(k, round1(SumOf(pairs, k)), SumOf(direct, k), show)
  {
    var out := JoinRows(chuvas, dengue, show).value;
    JoinRowsCovers(chuvas, dengue, show);
    forall k | k in KeysOf(pairs) && k in KeysOf(direct)
      ensures exists n :: 0 <= n < |out| && out[n] == CsvRow(k, round1(SumOf(pairs, k)), SumOf(direct, k), show)
    {
      var i :| 0 <= i < |chuvas| && chuvas[i].0 == k;
      var j :| 0 <= j < |dengue| && dengue[j].0 == k;
    }
  }
}
