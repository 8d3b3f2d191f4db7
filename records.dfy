/** The record-level functions of the dengue/rainfall job: turning a
    delimited line into a record, deriving the `UF-ANO-MES` join key on both
    sides, normalising the measure, and unpacking and formatting a joined
    entry. Python's `float(...)` and `str(...)` are foreign conversions and
    come in as the parameters `parse` and `show`. */
module Records {
  import opened Errors
  import opened Text
  import Beam

  /** A disease record: column name to raw field text. */
  type Record = map<string, string>

  /** The column schema of the disease file, in file order. */
  const Columns: seq<string> :=
    ["id", "data_iniSE", "casos", "ibge_code", "cidade", "uf", "cep", "latitude", "longitude"]

  function Min(a: nat, b: nat): nat { if a <= b then a else b }

  /** `dict(zip(colunas, elemento))`: pairs are inserted in order up to the
      shorter of the two lengths; surplus columns or fields are dropped
      silently. */
  function ListToDict(fields: seq<string>, cols: seq<string>): Record
    decreases Min(|cols|, |fields|)
  {
    var n := Min(|cols|, |fields|);
    if n == 0 then map[]
    else ListToDict(fields[..n-1], cols[..n-1])[cols[n-1] := fields[n-1]]
  }

  /** The keys are exactly the first `min(|cols|, |fields|)` column names. */
  lemma {:induction false} ListToDictKeys(fields: seq<string>, cols: seq<string>)
    ensures ListToDict(fields, cols).Keys == set i | 0 <= i < Min(|cols|, |fields|) :: cols[i]
    decreases Min(|cols|, |fields|)
  {
    var n := Min(|cols|, |fields|);
    if n > 0 {
      ListToDictKeys(fields[..n-1], cols[..n-1]);
      assert Min(|cols[..n-1]|, |fields[..n-1]|) == n - 1;
      var prev := cols[..n-1];
      assert forall i :: 0 <= i < n - 1 ==> prev[i] == cols[i];
      assert (set i | 0 <= i < n - 1 :: prev[i]) == set i | 0 <= i < n - 1 :: cols[i];
      assert (set i | 0 <= i < n :: cols[i]) == (set i | 0 <= i < n - 1 :: cols[i]) + {cols[n-1]};
    }
  }

  /** A column maps to its own field when no later column within the zipped
      length repeats its name (a repeated name keeps its last field). */
  lemma {:induction false} ListToDictAt(fields: seq<string>, cols: seq<string>, i: nat)
    requires i < Min(|cols|, |fields|)
    requires forall j :: i < j < Min(|cols|, |fields|) ==> cols[j] != cols[i]
    ensures cols[i] in ListToDict(fields, cols)
    ensures ListToDict(fields, cols)[cols[i]] == fields[i]
    decreases Min(|cols|, |fields|)
  {
    var n := Min(|cols|, |fields|);
    if i < n - 1 {
      assert Min(|cols[..n-1]|, |fields[..n-1]|) == n - 1;
      ListToDictAt(fields[..n-1], cols[..n-1], i);
    }
  }

  /** No column name of the disease schema repeats. */
  lemma ColumnsDistinct()
    ensures forall i, j :: 0 <= i < j < |Columns| ==> Columns[i] != Columns[j]
  {
  }

  /** A disease line's record holds the first `min(9, |fields|)` columns,
      each with its own field, and no other key. */
  lemma DiseaseRecordFields(fields: seq<string>)
    ensures forall i :: 0 <= i < Min(|Columns|, |fields|) ==>
              Columns[i] in ListToDict(fields, Columns)
              && ListToDict(fields, Columns)[Columns[i]] == fields[i]
    ensures forall i :: Min(|Columns|, |fields|) <= i < |Columns| ==>
              Columns[i] !in ListToDict(fields, Columns)
  {
    var n := Min(|Columns|, |fields|);
    ColumnsDistinct();
    ListToDictKeys(fields, Columns);
    forall i | 0 <= i < n
      ensures Columns[i] in ListToDict(fields, Columns)
      ensures ListToDict(fields, Columns)[Columns[i]] == fields[i]
    {
      ListToDictAt(fields, Columns, i);
    }
  }

  /** `'-'.join(data.split('-')[:2])`: the first two `-`-separated components
      of a date, or the only one. */
  function YearMonth(date: string): string
  {
    var parts := Split(date, '-');
    Join(parts[..Min(2, |parts|)], '-')
  }

  /** The year-month is a prefix of the date whose components are the first
      two components of the date; a date without `-` is its own year-month. */
  lemma YearMonthParts(date: string)
    ensures Split(YearMonth(date), '-') == Split(date, '-')[..Min(2, |Split(date, '-')|)]
    ensures YearMonth(date) <= date
    ensures '-' in date <==> |Split(YearMonth(date), '-')| == 2
    ensures '-' !in date ==> YearMonth(date) == date
  {
    var parts := Split(date, '-');
    var n := Min(2, |parts|);
    SplitClean(date, '-');
    SplitJoin(parts[..n], '-');
    JoinPrefix(parts, n, '-');
    JoinSplit(date, '-');
    SplitSingle(date, '-');
  }

  /** Two dates give the same year-month exactly when their first two
      components agree. */
  lemma YearMonthEqual(d1: string, d2: string)
    ensures YearMonth(d1) == YearMonth(d2)
        <==> Split(d1, '-')[..Min(2, |Split(d1, '-')|)] == Split(d2, '-')[..Min(2, |Split(d2, '-')|)]
  {
    YearMonthParts(d1);
    YearMonthParts(d2);
  }

  /** `trata_datas`: stores the year-month of `data_iniSE` under `ano_mes`,
      leaving every other field as it was; a record without `data_iniSE`
      raises `KeyError`. */
  function AddYearMonth(rec: Record): (r: Result<Record>)
    ensures r.Ok? <==> "data_iniSE" in rec
    ensures r.Err? ==> r.error == KeyError("data_iniSE")
    ensures r.Ok? ==> r.value.Keys == rec.Keys + {"ano_mes"}
    ensures r.Ok? ==> r.value["ano_mes"] == YearMonth(rec["data_iniSE"])
    ensures r.Ok? ==> forall c :: c in rec && c != "ano_mes" ==> r.value[c] == rec[c]
  {
    if "data_iniSE" !in rec then Err(KeyError("data_iniSE"))
    else Ok(rec["ano_mes" := YearMonth(rec["data_iniSE"])])
  }

  /** `chave_uf`: pairs the record with its state code. */
  function KeyByState(rec: Record): (r: Result<(string, Record)>)
    ensures r.Ok? <==> "uf" in rec
    ensures r.Err? ==> r.error == KeyError("uf")
    ensures r.Ok? ==> r.value.0 == rec["uf"] && r.value.1 == rec
  {
    if "uf" !in rec then Err(KeyError("uf")) else Ok((rec["uf"], rec))
  }

  /** One iteration of `casos_dengue`: the pair for one record of the state
      group `uf`. The key is `uf-ano_mes`; an empty case count counts as 0,
      any other is parsed. The field lookups fail in the order the source
      evaluates them: `casos`, then `ano_mes`, then the number itself. */
  function CaseEmission(uf: string, rec: Record, parse: string -> Option<real>): (r: Result<(string, real)>)
    ensures r.Ok? <==> "casos" in rec && "ano_mes" in rec
                       && (rec["casos"] == "" || parse(rec["casos"]).Some?)
    ensures "casos" !in rec ==> r == Err(KeyError("casos"))
    ensures "casos" in rec && "ano_mes" !in rec ==> r == Err(KeyError("ano_mes"))
    ensures "casos" in rec && "ano_mes" in rec && rec["casos"] != "" && parse(rec["casos"]).None?
            ==> r == Err(ValueError(rec["casos"]))
    ensures r.Ok? ==> r.value.0 == uf + "-" + rec["ano_mes"]
    ensures r.Ok? && rec["casos"] == "" ==> r.value.1 == 0.0
    ensures r.Ok? && rec["casos"] != "" ==> parse(rec["casos"]) == Some(r.value.1)
  {
    if "casos" !in rec then Err(KeyError("casos"))
    else if "ano_mes" !in rec then Err(KeyError("ano_mes"))
    else if rec["casos"] == "" then Ok((uf + "-" + rec["ano_mes"], 0.0))
    else
      match parse(rec["casos"])
      case None => Err(ValueError(rec["casos"]))
      case Some(v) => Ok((uf + "-" + rec["ano_mes"], v))
  }

  /** `casos_dengue` as a function: the pairs of one state group, one per
      record and in the group's order. */
  function DengueCases(uf: string, recs: seq<Record>, parse: string -> Option<real>): (r: Result<seq<(string, real)>>)
    ensures r.Ok? <==> forall i :: 0 <= i < |recs| ==> CaseEmission(uf, recs[i], parse).Ok?
    ensures r.Ok? ==> |r.value| == |recs|
    ensures r.Ok? ==> forall i :: 0 <= i < |recs| ==>
              "ano_mes" in recs[i] && r.value[i].0 == uf + "-" + recs[i]["ano_mes"]
    ensures r.Ok? ==> forall i :: 0 <= i < |recs| ==>
              "casos" in recs[i] && (recs[i]["casos"] == "" ==> r.value[i].1 == 0.0)
              && (recs[i]["casos"] != "" ==> parse(recs[i]["casos"]) == Some(r.value[i].1))
  {
    Traverse(recs, CaseStepIn(uf, parse))
  }

  function CaseStepIn(uf: string, parse: string -> Option<real>): Record -> Result<(string, real)>
  {
    rec => CaseEmission(uf, rec, parse)
  }

  /** The generator `casos_dengue`, as the loop the source runs: one pair
      emitted per record, the first failing record aborting the run. */
  method CasosDengue(uf: string, recs: seq<Record>, parse: string -> Option<real>)
    returns (r: Result<seq<(string, real)>>)
    ensures r == DengueCases(uf, recs, parse)
  {
    var out: seq<(string, real)> := [];
    var i := 0;
    while i < |recs|
      invariant 0 <= i <= |recs|
      invariant Traverse(recs[..i], CaseStepIn(uf, parse)) == Ok(out)
    {
      var rec := recs[i];
      // the emitted key reads `ano_mes` in both branches of the source
      if "casos" !in rec || "ano_mes" !in rec {
        TraverseStops(recs, i, CaseStepIn(uf, parse));
        return Err(KeyError(if "casos" !in rec then "casos" else "ano_mes"));
      }
      var casos := rec["casos"];
      var v: real;
      if casos == "" {
        v := 0.0;
      } else {
        match parse(casos)
        case None =>
          TraverseStops(recs, i, CaseStepIn(uf, parse));
          return Err(ValueError(casos));
        case Some(x) =>
          v := x;
      }
      TraverseStep(recs, i, CaseStepIn(uf, parse));
      out := out + [(uf + "-" + rec["ano_mes"], v)];
      i := i + 1;
    }
    assert recs[..i] == recs;
    r := Ok(out);
  }

  /** `chave_uf_ano_mes_de_lista`: a rainfall line `(data, mm, uf)` keyed by
      `uf-ano_mes`, with a negative volume clamped to 0. Any other number of
      fields fails the unpacking; an unparsable volume fails the conversion. */
  function RainKeyValue(fields: seq<string>, parse: string -> Option<real>): (r: Result<(string, real)>)
    ensures r.Ok? <==> |fields| == 3 && parse(fields[1]).Some?
    ensures |fields| != 3 ==> r == Err(UnpackError(3, |fields|))
    ensures |fields| == 3 && parse(fields[1]).None? ==> r == Err(ValueError(fields[1]))
    ensures r.Ok? ==> r.value.0 == fields[2] + "-" + YearMonth(fields[0])
    ensures r.Ok? ==> r.value.1 >= 0.0
    ensures r.Ok? && parse(fields[1]).value >= 0.0 ==> r.value.1 == parse(fields[1]).value
    ensures r.Ok? && parse(fields[1]).value < 0.0 ==> r.value.1 == 0.0
  {
    if |fields| != 3 then Err(UnpackError(3, |fields|))
    else
      var data, mm, uf := fields[0], fields[1], fields[2];
      var anoMes := Join(Split(data, '-')[..Min(2, |Split(data, '-')|)], '-');
      var chave := uf + "-" + anoMes;
      match parse(mm)
      case None => Err(ValueError(mm))
      case Some(v) => Ok((chave, if v < 0.0 then 0.0 else v))
  }

  /** A state code and the rest of a key, glued by `-`, come apart again when
      neither state code contains `-`. */
  lemma KeyParts(uf1: string, rest1: string, uf2: string, rest2: string)
    requires '-' !in uf1 && '-' !in uf2
    ensures uf1 + "-" + rest1 == uf2 + "-" + rest2 <==> uf1 == uf2 && rest1 == rest2
  {
    if uf1 + "-" + rest1 == uf2 + "-" + rest2 {
      SplitAt(uf1, rest1, '-');
      SplitAt(uf2, rest2, '-');
      SplitSingle(uf1, '-');
      SplitSingle(uf2, '-');
      JoinSplit(rest1, '-');
      JoinSplit(rest2, '-');
      assert Split(rest1, '-') == Split(uf1 + "-" + rest1, '-')[1..];
      assert Split(rest2, '-') == Split(uf2 + "-" + rest2, '-')[1..];
    }
  }

  /** The disease path of one record: `trata_datas`, `chave_uf`, then its
      iteration of `casos_dengue`. */
  function DiseaseEmission(rec: Record, parse: string -> Option<real>): Result<(string, real)>
  {
    match AddYearMonth(rec)
    case Err(e) => Err(e)
    case Ok(dated) =>
      match KeyByState(dated)
      case Err(e) => Err(e)
      case Ok(keyed) => CaseEmission(keyed.0, keyed.1, parse)
  }

  /** The disease path of one record in terms of the record itself: it needs
      `data_iniSE`, `uf` and `casos`, looked up in that order, and a case
      count that is empty or a number; the key is the state code, `-` and the
      year-month of the notification date. */
  lemma DiseaseEmissionFields(rec: Record, parse: string -> Option<real>)
    ensures var r := DiseaseEmission(rec, parse);
            r.Ok? <==> "data_iniSE" in rec && "uf" in rec && "casos" in rec
                       && (rec["casos"] == "" || parse(rec["casos"]).Some?)
    ensures "data_iniSE" !in rec ==> DiseaseEmission(rec, parse) == Err(KeyError("data_iniSE"))
    ensures "data_iniSE" in rec && "uf" !in rec ==> DiseaseEmission(rec, parse) == Err(KeyError("uf"))
    ensures "data_iniSE" in rec && "uf" in rec && "casos" !in rec
            ==> DiseaseEmission(rec, parse) == Err(KeyError("casos"))
    ensures var r := DiseaseEmission(rec, parse);
            r.Ok? ==> r.value.0 == rec["uf"] + "-" + YearMonth(rec["data_iniSE"])
                      && (rec["casos"] == "" ==> r.value.1 == 0.0)
                      && (rec["casos"] != "" ==> parse(rec["casos"]) == Some(r.value.1))
  {
    if "data_iniSE" in rec {
      var dated := AddYearMonth(rec).value;
      assert "casos" in dated <==> "casos" in rec;
      assert "uf" in dated <==> "uf" in rec;
      if "uf" in rec {
        assert dated["uf"] == rec["uf"];
      }
      if "casos" in rec {
        assert dated["casos"] == rec["casos"];
      }
    }
  }

  /** `chave_uf` groups a record under its state code, and that code is what
      the disease path puts in front of the record's key: the key is the
      group key, `-` and the year-month, so a group key without `-` is the
      first `-`-component of every key emitted for its records. */
  lemma GroupKeyPrefix(rec: Record, parse: string -> Option<real>)
    requires DiseaseEmission(rec, parse).Ok?
    ensures "data_iniSE" in rec && KeyByState(AddYearMonth(rec).value).Ok?
    ensures var uf, key := KeyByState(AddYearMonth(rec).value).value.0, DiseaseEmission(rec, parse).value.0;
            uf == rec["uf"]
            && key == uf + "-" + YearMonth(rec["data_iniSE"])
            && ('-' !in uf ==> Split(key, '-')[0] == uf)
  {
    DiseaseEmissionFields(rec, parse);
    var uf := rec["uf"];
    assert AddYearMonth(rec).value["uf"] == uf;
    SplitAt(uf, YearMonth(rec["data_iniSE"]), '-');
    SplitSingle(uf, '-');
  }

  /** Key agreement: the disease path and the rainfall path build their keys
      independently, yet a disease record and a rainfall line with the same
      state code and a date of the same year and month get byte-identical
      keys. Conversely, for state codes without `-`, equal keys mean equal
      state codes and equal first two date components. */
  lemma KeysAgree(rec: Record, fields: seq<string>, parse: string -> Option<real>)
    requires DiseaseEmission(rec, parse).Ok? && RainKeyValue(fields, parse).Ok?
    ensures "uf" in rec && "data_iniSE" in rec && |fields| == 3
    ensures rec["uf"] == fields[2] && YearMonth(rec["data_iniSE"]) == YearMonth(fields[0])
            ==> DiseaseEmission(rec, parse).value.0 == RainKeyValue(fields, parse).value.0
    ensures '-' !in rec["uf"] && '-' !in fields[2] ==>
              (DiseaseEmission(rec, parse).value.0 == RainKeyValue(fields, parse).value.0
               <==> rec["uf"] == fields[2]
                    && Split(rec["data_iniSE"], '-')[..Min(2, |Split(rec["data_iniSE"], '-')|)]
                       == Split(fields[0], '-')[..Min(2, |Split(fields[0], '-')|)])
  {
    var dated := AddYearMonth(rec).value;
    assert dated["ano_mes"] == YearMonth(rec["data_iniSE"]);
    assert dated["uf"] == rec["uf"];
    YearMonthEqual(rec["data_iniSE"], fields[0]);
    if '-' !in rec["uf"] && '-' !in fields[2] {
      KeyParts(rec["uf"], YearMonth(rec["data_iniSE"]), fields[2], YearMonth(fields[0]));
    }
  }

  /** `filtra_campos_vazios`: keeps a co-grouped key only when both its
      rainfall list and its disease list are non-empty. */
  predicate BothPresent(entry: (string, Beam.CoGroup<real>))
  {
    |entry.1.left| > 0 && |entry.1.right| > 0
  }

  /** A joined output row: `(uf, ano, mes, chuva, dengue)`. */
  datatype Row = Row(uf: string, ano: string, mes: string, chuva: string, dengue: string)
  {
    function Fields(): seq<string> { [uf, ano, mes, chuva, dengue] }
  }

  /** `descompactar_elementos`: the first rainfall value and the first disease
      value of a co-grouped key, and the key split back into state, year and
      month. An empty list raises `IndexError`; a key that does not split into
      exactly three parts fails the unpacking. */
  function Unpack(entry: (string, Beam.CoGroup<real>), show: real -> string): (r: Result<Row>)
    ensures r.Ok? <==> |entry.1.left| > 0 && |entry.1.right| > 0 && |Split(entry.0, '-')| == 3
    ensures |entry.1.left| == 0 ==> r == Err(IndexError("chuvas"))
    ensures |entry.1.left| > 0 && |entry.1.right| == 0 ==> r == Err(IndexError("dengue"))
    ensures |entry.1.left| > 0 && |entry.1.right| > 0 && |Split(entry.0, '-')| != 3
            ==> r == Err(UnpackError(3, |Split(entry.0, '-')|))
    ensures r.Ok? ==> Join([r.value.uf, r.value.ano, r.value.mes], '-') == entry.0
    ensures r.Ok? ==> '-' !in r.value.uf && '-' !in r.value.ano && '-' !in r.value.mes
    ensures r.Ok? ==> r.value.chuva == show(entry.1.left[0]) && r.value.dengue == show(entry.1.right[0])
  {
    var (chave, dados) := entry;
    if |dados.left| == 0 then Err(IndexError("chuvas"))
    else if |dados.right| == 0 then Err(IndexError("dengue"))
    else
      var parts := Split(chave, '-');
      if |parts| != 3 then Err(UnpackError(3, |parts|))
      else
        JoinSplit(chave, '-');
        SplitClean(chave, '-');
        assert parts == [parts[0], parts[1], parts[2]];
        Ok(Row(parts[0], parts[1], parts[2], show(dados.left[0]), show(dados.right[0])))
  }

  /** An unpacked row lists the three parts of the key and then the two
      displayed values. */
  lemma UnpackFields(entry: (string, Beam.CoGroup<real>), show: real -> string)
    requires Unpack(entry, show).Ok?
    ensures Unpack(entry, show).value.Fields()
         == Split(entry.0, '-') + [show(entry.1.left[0]), show(entry.1.right[0])]
  {
    var row := Unpack(entry, show).value;
    SplitJoin([row.uf, row.ano, row.mes], '-');
  }

  /** The keys both paths build unpack into their parts exactly when the state
      code has no `-` and the date has at least two components, or in the
      one degenerate case of a state code with one `-` and a date with none,
      where the fields come out shifted. In the regular case the row holds the
      state code, the year and the month. */
  lemma UnpackJoinKey(uf: string, date: string, entry: (string, Beam.CoGroup<real>), show: real -> string)
    requires entry.0 == uf + "-" + YearMonth(date)
    requires |entry.1.left| > 0 && |entry.1.right| > 0
    ensures Unpack(entry, show).Ok?
        <==> ('-' !in uf && '-' in date) || (|Split(uf, '-')| == 2 && '-' !in date)
    ensures '-' !in uf && '-' in date ==>
              |Split(date, '-')| >= 2
              && Unpack(entry, show).value.uf == uf
              && Unpack(entry, show).value.ano == Split(date, '-')[0]
              && Unpack(entry, show).value.mes == Split(date, '-')[1]
  {
    SplitAt(uf, YearMonth(date), '-');
    YearMonthParts(date);
    SplitSingle(uf, '-');
    SplitSingle(date, '-');
  }

  /** `preparar_csv`: the fields joined by `;`. Splitting the line on `;`
      gives the fields back exactly when there is at least one field and no
      field contains `;`. */
  function ToCsv(fields: seq<string>): (line: string)
    ensures Split(line, ';') == fields <==> |fields| >= 1 && Clean(fields, ';')
  {
    SplitJoinExactly(fields, ';');
    Join(fields, ';')
  }
}
