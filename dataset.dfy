/**
 * The static crop table the service loads at start-up, the request body of
 * the prediction routes, and the revenue formula shared by every route.
 */
module Dataset {
  import opened Stats

  /** The seven soil and climate measurements of a request body. */
  datatype CropInput = CropInput(
    nitrogen: real,
    phosphorus: real,
    potassium: real,
    temperature: real,
    humidity: real,
    phValue: real,
    rainfall: real)

  /** One row of the table: the crop, its seven features, its yield and its price. */
  datatype CropRecord = CropRecord(
    crop: string,
    nitrogen: real,
    phosphorus: real,
    potassium: real,
    temperature: real,
    humidity: real,
    phValue: real,
    rainfall: real,
    yieldKgPerHa: real,
    pricePerQuintal: real)

  /** Estimated revenue from a yield (kg per hectare) and a price (per quintal). */
  function Revenue(yieldKgPerHa: real, pricePerQuintal: real): real {
    0.01 * yieldKgPerHa * pricePerQuintal
  }

  /** One column of a set of rows, in row order. */
  function Column(rows: seq<CropRecord>, field: CropRecord -> real): (col: seq<real>)
    ensures |col| == |rows|
    ensures forall i | 0 <= i < |rows| :: col[i] == field(rows[i])
  {
    seq(|rows|, i requires 0 <= i < |rows| => field(rows[i]))
  }

  /** The yield column of a set of rows. */
  function Yields(rows: seq<CropRecord>): (col: seq<real>)
    ensures |col| == |rows|
    ensures forall i | 0 <= i < |rows| :: col[i] == rows[i].yieldKgPerHa
  {
    seq(|rows|, i requires 0 <= i < |rows| => rows[i].yieldKgPerHa)
  }

  /** The price column of a set of rows. */
  function Prices(rows: seq<CropRecord>): (col: seq<real>)
    ensures |col| == |rows|
    ensures forall i | 0 <= i < |rows| :: col[i] == rows[i].pricePerQuintal
  {
    seq(|rows|, i requires 0 <= i < |rows| => rows[i].pricePerQuintal)
  }

  /** The revenue of each row, from its own yield and price. */
  function Revenues(rows: seq<CropRecord>): (col: seq<real>)
    ensures |col| == |rows|
    ensures forall i | 0 <= i < |rows| :: col[i] == Revenue(rows[i].yieldKgPerHa, rows[i].pricePerQuintal)
  {
    seq(|rows|, i requires 0 <= i < |rows| => Revenue(rows[i].yieldKgPerHa, rows[i].pricePerQuintal))
  }

  /**
   * `crop_data[crop_data['Crop'] == name]`: the rows whose crop is exactly
   * `name` (case-sensitive), in table order.
   */
  function NamedRows(table: seq<CropRecord>, name: string): (rows: seq<CropRecord>)
    ensures |rows| <= |table|
    ensures forall r | r in rows :: r in table && r.crop == name
    ensures forall r | r in table && r.crop == name :: r in rows
  {
    if table == [] then []
    else
      var rest := NamedRows(table[1..], name);
      if table[0].crop == name then [table[0]] + rest else rest
  }

  /**
   * The filter keeps every copy: a row named `name` occurs in the result
   * as often as in the table, and any other row not at all.
   */
  lemma {:induction false} NamedRowsCount(table: seq<CropRecord>, name: string, r: CropRecord)
    ensures multiset(NamedRows(table, name))[r] == if r.crop == name then multiset(table)[r] else 0
  {
    if table != [] {
      NamedRowsCount(table[1..], name, r);
      assert table == [table[0]] + table[1..];
      assert multiset(table) == multiset([table[0]]) + multiset(table[1..]);
    }
  }
}
