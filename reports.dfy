/**
 * The PDF report route. The document layout (title, date line, styles,
 * footer) is not modelled: what the report says is its two tables, the
 * soil and climate parameters and the ranked recommendations, modelled as
 * rows of cells.
 */
module Reports {
  import opened Strings
  import opened Dataset
  import opened Predictions

  datatype Option<T> = None | Some(value: T)

  /**
   * A table cell: a text, or a figure together with the way it is shown
   * (plain, followed by `%`, or preceded by the rupee sign).
   */
  datatype Cell = Text(text: string) | Number(value: real) | Percent(value: real) | Rupees(value: real)

  type Table = seq<seq<Cell>>

  // ---------------------------------------------------------------------
  // The parameters table
  // ---------------------------------------------------------------------

  const PARAMS_HEADER: seq<Cell> := [Text("Parameter"), Text("Value"), Text("Unit")]

  /** The row labels of the parameters table, in request-body order. */
  const PARAMETERS: seq<string> :=
    ["Nitrogen", "Phosphorus", "Potassium", "Temperature", "Humidity", "pH Value", "Rainfall"]

  /**
   * The parameters table: a header and one row per measurement of the
   * request body, with its label, its value and its unit.
   */
  function ParamsTable(data: CropInput): (t: Table)
    ensures |t| == |PARAMETERS| + 1 && t[0] == PARAMS_HEADER
    ensures forall i | 0 <= i < |t| :: |t[i]| == 3
    ensures forall i | 1 <= i < |t| :: t[i][0] == Text(PARAMETERS[i - 1])
    ensures ReadParams(t) == Some(data)
  {
    [
      [Text("Parameter"), Text("Value"), Text("Unit")],
      [Text("Nitrogen"), Number(data.nitrogen), Text("kg/ha")],
      [Text("Phosphorus"), Number(data.phosphorus), Text("kg/ha")],
      [Text("Potassium"), Number(data.potassium), Text("kg/ha")],
      [Text("Temperature"), Number(data.temperature), Text("°C")],
      [Text("Humidity"), Number(data.humidity), Text("%")],
      [Text("pH Value"), Number(data.phValue), Text("")],
      [Text("Rainfall"), Number(data.rainfall), Text("mm")]
    ]
  }

  /**
   * A reader of the parameters table: the request body, when every
   * measurement row carries its label and a number.
   */
  function ReadParams(t: Table): Option<CropInput> {
    if && |t| == |PARAMETERS| + 1
       && (forall i | 1 <= i < |t| :: |t[i]| == 3 && t[i][0] == Text(PARAMETERS[i - 1]) && t[i][1].Number?)
    then Some(CropInput(t[1][1].value, t[2][1].value, t[3][1].value, t[4][1].value,
                        t[5][1].value, t[6][1].value, t[7][1].value))
    else None
  }

  /** Two request bodies give the same parameters table only if they are equal. */
  lemma ParamsTableInjective(d1: CropInput, d2: CropInput)
    requires ParamsTable(d1) == ParamsTable(d2)
    ensures d1 == d2
  {
    assert Some(d1) == ReadParams(ParamsTable(d1)) == ReadParams(ParamsTable(d2)) == Some(d2);
  }

  // ---------------------------------------------------------------------
  // The recommendations table
  // ---------------------------------------------------------------------

  const REC_HEADER: seq<Cell> :=
    [Text("Rank"), Text("Crop"), Text("Confidence"), Text("Yield (kg/ha)"), Text("Price (₹/quintal)"), Text("Revenue (₹)")]

  /** The rank label `#n`. */
  function RankLabel(rank: nat): (s: string)
    ensures |s| >= 2 && s[0] == '#'
    ensures forall i | 1 <= i < |s| :: IsDigit(s[i])
  {
    "#" + Decimal(rank)
  }

  /** The row of the recommendation at `rank`. */
  function RecRow(rank: nat, p: Prediction): seq<Cell> {
    [Text(RankLabel(rank)), Text(p.crop), Percent(p.confidence),
     Number(p.yieldKgPerHa), Rupees(p.pricePerQuintal), Rupees(p.estimatedRevenue)]
  }

  /** A recommendation together with the rank its row shows. */
  datatype Ranked = Ranked(rank: nat, entry: Prediction)

  /** The number in a label `#n`. */
  function ParseRank(s: string): Option<nat> {
    if |s| >= 2 && s[0] == '#' && forall i | 1 <= i < |s| :: IsDigit(s[i])
    then Some(ParseDecimal(s[1..]))
    else None
  }

  /** A reader of one recommendation row: its rank and its figures. */
  function ReadRow(row: seq<Cell>): Option<Ranked> {
    if && |row| == 6
       && row[0].Text? && row[1].Text? && row[2].Percent?
       && row[3].Number? && row[4].Rupees? && row[5].Rupees?
       && ParseRank(row[0].text).Some?
    then Some(Ranked(ParseRank(row[0].text).value,
      Prediction(row[1].text, row[2].value, row[3].value, row[4].value, row[5].value)))
    else None
  }

  /** A row reads back as the rank and the recommendation it was made from. */
  lemma RecRowRoundTrip(rank: nat, p: Prediction)
    ensures ReadRow(RecRow(rank, p)) == Some(Ranked(rank, p))
  {
    var tag := RankLabel(rank);
    assert tag[1..] == Decimal(rank);
    ParseDecimalRoundTrip(rank);
  }

  /**
   * `rec_data`: the header, then one row per recommendation, ranked from 1
   * in list order.
   */
  method RecommendationTable(results: seq<Prediction>) returns (recData: Table)
    ensures |recData| == |results| + 1 && recData[0] == REC_HEADER
    ensures forall i | 1 <= i < |recData| :: ReadRow(recData[i]) == Some(Ranked(i, results[i - 1]))
  {
    recData := [REC_HEADER];
    for i := 1 to |results| + 1
      invariant |recData| == i && recData[0] == REC_HEADER
      invariant forall k | 1 <= k < i :: ReadRow(recData[k]) == Some(Ranked(k, results[k - 1]))
    {
      var crop := results[i - 1];
      RecRowRoundTrip(i, crop);
      recData := recData + [RecRow(i, crop)];
    }
  }

  // ---------------------------------------------------------------------
  // POST /generate-report
  // ---------------------------------------------------------------------

  /** What the report shows: the parameters table and the recommendations table. */
  datatype Report = Report(parameters: Table, recommendations: Table)

  /**
   * `generate_pdf_report`: rank the crops as `/predict-top-3` does, then lay
   * out the parameters and the recommendations. The report reads back as
   * the request body and the top-3 response, and no crop appears twice.
   */
  method GenerateReport(data: CropInput, inf: Inference, table: seq<CropRecord>) returns (report: Report)
    requires ValidRanking(inf)
    ensures ReadParams(report.parameters) == Some(data)
    ensures var recs := report.recommendations;
      && |recs| == |TopCrops(inf, table)| + 1 <= TOP_K + 1
      && recs[0] == REC_HEADER
      && (forall i | 1 <= i < |recs| :: ReadRow(recs[i]) == Some(Ranked(i, TopCrops(inf, table)[i - 1])))
    ensures forall i, j | 1 <= i < j < |report.recommendations| ::
      report.recommendations[i][1] != report.recommendations[j][1]
  {
    var results := PredictTopCrops(inf, table);
    TopCropsDistinct(inf, table, results);
    var paramsData := ParamsTable(data);
    var recData := RecommendationTable(results);
    forall i, j | 1 <= i < j < |recData| ensures recData[i][1] != recData[j][1] {
      assert Names(results)[i - 1] != Names(results)[j - 1];
      assert recData[i][1] == Text(results[i - 1].crop) by {
        assert ReadRow(recData[i]).value.entry.crop == results[i - 1].crop;
      }
      assert recData[j][1] == Text(results[j - 1].crop) by {
        assert ReadRow(recData[j]).value.entry.crop == results[j - 1].crop;
      }
    }
    report := Report(paramsData, recData);
  }
}
