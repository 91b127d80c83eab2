/**
 * The prediction routes. The fitted classifier, regressors, scaler and label
 * encoder are not modelled: what they return for one request is the
 * `Inference` value, and the routes' own logic is modelled on top of it.
 */
module Predictions {
  import opened Collections
  import opened Stats
  import opened Dataset

  /**
   * The model outputs for one request: the class probabilities, the class
   * labels (index to crop name; a name may repeat), the class indices in
   * non-increasing probability order (`argsort()[::-1]`), the class the
   * classifier predicts, and the two regressors' outputs.
   */
  datatype Inference = Inference(
    probabilities: seq<real>,
    classes: seq<string>,
    ranking: seq<nat>,
    predictedClass: nat,
    yieldEstimate: real,
    priceEstimate: real)

  /**
   * `ranking` lists every class index once, by non-increasing probability.
   * numpy's default sort is not stable, so any order among equal
   * probabilities is accepted.
   */
  predicate ValidRanking(inf: Inference) {
    && |inf.classes| == |inf.probabilities| == |inf.ranking|
    && (forall p | 0 <= p < |inf.ranking| :: inf.ranking[p] < |inf.probabilities|)
    && (forall i | 0 <= i < |inf.probabilities| :: i in inf.ranking)
    && Descending(inf, inf.ranking)
  }

  predicate Descending(inf: Inference, ranked: seq<nat>)
    requires InRange(inf, ranked)
  {
    forall p, q | 0 <= p < q < |ranked| ::
      inf.probabilities[ranked[p]] >= inf.probabilities[ranked[q]]
  }

  predicate InRange(inf: Inference, ranked: seq<nat>) {
    forall p | 0 <= p < |ranked| :: ranked[p] < |inf.classes| && ranked[p] < |inf.probabilities|
  }

  /** One entry of a prediction response, before rounding to two decimals. */
  datatype Prediction = Prediction(
    crop: string,
    confidence: real,
    yieldKgPerHa: real,
    pricePerQuintal: real,
    estimatedRevenue: real)

  // ---------------------------------------------------------------------
  // POST /predict
  // ---------------------------------------------------------------------

  /**
   * The single prediction: the classifier's class, the largest probability
   * as a percentage, the regressors' yield and price, and the revenue
   * derived from them.
   */
  function PredictCrop(inf: Inference): (p: Prediction)
    requires |inf.probabilities| > 0 && inf.predictedClass < |inf.classes|
    ensures p.crop == inf.classes[inf.predictedClass]
    ensures exists i | 0 <= i < |inf.probabilities| :: p.confidence == inf.probabilities[i] * 100.0
    ensures forall i | 0 <= i < |inf.probabilities| :: inf.probabilities[i] * 100.0 <= p.confidence
    ensures p.yieldKgPerHa == inf.yieldEstimate && p.pricePerQuintal == inf.priceEstimate
    ensures p.estimatedRevenue == 0.01 * p.yieldKgPerHa * p.pricePerQuintal
  {
    var confidence := Max(inf.probabilities) * 100.0;
    Prediction(
      inf.classes[inf.predictedClass],
      confidence,
      inf.yieldEstimate,
      inf.priceEstimate,
      Revenue(inf.yieldEstimate, inf.priceEstimate))
  }

  /**
   * A fixture: a classifier 87.5% sure of rice and regressors predicting
   * 3200 kg/ha at 2100 per quintal give a revenue of 67200.
   */
  lemma PredictCropFixture()
    ensures PredictCrop(Inference([0.875, 0.125], ["Rice", "Wheat"], [0, 1], 0, 3200.0, 2100.0))
         == Prediction("Rice", 87.5, 3200.0, 2100.0, 67200.0)
  {
    assert Max([0.875, 0.125]) == 0.875 by {
      assert [0.875, 0.125][1..] == [0.125];
    }
  }

  // ---------------------------------------------------------------------
  // POST /predict-top-3
  // ---------------------------------------------------------------------

  /** At most this many distinct crops are recommended. */
  const TOP_K: nat := 3

  /**
   * The entry for class `idx`: its probability as a percentage and, when the
   * table has rows named exactly like the class, their mean yield and mean
   * price; otherwise the regressors' outputs.
   */
  function Estimate(inf: Inference, table: seq<CropRecord>, idx: nat): Prediction
    requires idx < |inf.classes| && idx < |inf.probabilities|
  {
    var name := inf.classes[idx];
    var rows := NamedRows(table, name);
    var y := if |rows| > 0 then Mean(Yields(rows)) else inf.yieldEstimate;
    var p := if |rows| > 0 then Mean(Prices(rows)) else inf.priceEstimate;
    Prediction(name, inf.probabilities[idx] * 100.0, y, p, Revenue(y, p))
  }

  /**
   * What an entry says about its class: the class's name, its probability
   * as a percentage; when the table has rows with that exact name, a yield
   * and a price within the range of those rows' figures; otherwise the
   * regressors' outputs; and the revenue of the two.
   */
  lemma EstimateFigures(inf: Inference, table: seq<CropRecord>, idx: nat)
    requires idx < |inf.classes| && idx < |inf.probabilities|
    ensures Estimate(inf, table, idx).crop == inf.classes[idx]
    ensures Estimate(inf, table, idx).confidence == inf.probabilities[idx] * 100.0
    ensures |NamedRows(table, inf.classes[idx])| > 0 ==>
      && Min(Yields(NamedRows(table, inf.classes[idx]))) <= Estimate(inf, table, idx).yieldKgPerHa
      && Estimate(inf, table, idx).yieldKgPerHa <= Max(Yields(NamedRows(table, inf.classes[idx])))
      && Min(Prices(NamedRows(table, inf.classes[idx]))) <= Estimate(inf, table, idx).pricePerQuintal
      && Estimate(inf, table, idx).pricePerQuintal <= Max(Prices(NamedRows(table, inf.classes[idx])))
    ensures |NamedRows(table, inf.classes[idx])| == 0 ==>
      && Estimate(inf, table, idx).yieldKgPerHa == inf.yieldEstimate
      && Estimate(inf, table, idx).pricePerQuintal == inf.priceEstimate
    ensures Estimate(inf, table, idx).estimatedRevenue
      == Revenue(Estimate(inf, table, idx).yieldKgPerHa, Estimate(inf, table, idx).pricePerQuintal)
  {
    var rows := NamedRows(table, inf.classes[idx]);
    if |rows| > 0 {
      MeanBetween(Yields(rows));
      MeanBetween(Prices(rows));
    }
  }

  function NameAt(inf: Inference, ranked: seq<nat>, p: nat): string
    requires InRange(inf, ranked) && p < |ranked|
  {
    inf.classes[ranked[p]]
  }

  /**
   * The ranking rule, as the positions of `ranked` it picks: from position
   * `from` on, skip a class whose name is in `seen`, otherwise pick it and
   * remember its name, until `room` positions have been picked.
   */
  function Picks(inf: Inference, ranked: seq<nat>, from: nat, seen: set<string>, room: nat): (ps: seq<nat>)
    requires InRange(inf, ranked) && from <= |ranked|
    ensures |ps| <= room
    ensures forall j | 0 <= j < |ps| :: from <= ps[j] < |ranked| && NameAt(inf, ranked, ps[j]) !in seen
    ensures forall j, k | 0 <= j < k < |ps| :: ps[j] < ps[k]
    decreases |ranked| - from
  {
    if room == 0 || from == |ranked| then []
    else
      var name := NameAt(inf, ranked, from);
      if name in seen then Picks(inf, ranked, from + 1, seen, room)
      else [from] + Picks(inf, ranked, from + 1, seen + {name}, room - 1)
  }

  /** The names of the classes at positions `from` and after. */
  function NamesFrom(inf: Inference, ranked: seq<nat>, from: nat): set<string>
    requires InRange(inf, ranked)
  {
    set p | from <= p < |ranked| :: NameAt(inf, ranked, p)
  }

  /** The names at the picked positions. */
  function PickedNames(inf: Inference, ranked: seq<nat>, ps: seq<nat>): set<string>
    requires InRange(inf, ranked)
    requires forall j | 0 <= j < |ps| :: ps[j] < |ranked|
  {
    set j | 0 <= j < |ps| :: NameAt(inf, ranked, ps[j])
  }

  /**
   * A picked name occurs nowhere between `from` and its position, and no two
   * picked positions carry the same name.
   */
  lemma {:induction false} PicksFirstOccurrences(inf: Inference, ranked: seq<nat>, from: nat, seen: set<string>, room: nat, ps: seq<nat>)
    requires InRange(inf, ranked) && from <= |ranked|
    requires ps == Picks(inf, ranked, from, seen, room)
    ensures forall j, q | 0 <= j < |ps| && from <= q < ps[j] :: NameAt(inf, ranked, q) != NameAt(inf, ranked, ps[j])
    ensures forall j, k | 0 <= j < k < |ps| :: NameAt(inf, ranked, ps[j]) != NameAt(inf, ranked, ps[k])
    decreases |ranked| - from
  {
    if room != 0 && from < |ranked| {
      var name := NameAt(inf, ranked, from);
      if name in seen {
        PicksFirstOccurrences(inf, ranked, from + 1, seen, room, ps);
      } else {
        var rest := Picks(inf, ranked, from + 1, seen + {name}, room - 1);
        PicksFirstOccurrences(inf, ranked, from + 1, seen + {name}, room - 1, rest);
        assert ps == [from] + rest;
        forall j, q | 0 <= j < |ps| && from <= q < ps[j]
          ensures NameAt(inf, ranked, q) != NameAt(inf, ranked, ps[j])
        {
          assert ps[j] == rest[j - 1];
          if q > from {
            assert from + 1 <= q < rest[j - 1];
          } else {
            assert NameAt(inf, ranked, rest[j - 1]) !in seen + {name};
          }
        }
        forall j, k | 0 <= j < k < |ps| ensures NameAt(inf, ranked, ps[j]) != NameAt(inf, ranked, ps[k]) {
          assert ps[k] == rest[k - 1];
          if j > 0 {
            assert ps[j] == rest[j - 1];
          } else {
            assert NameAt(inf, ranked, rest[k - 1]) !in seen + {name};
          }
        }
      }
    }
  }

  /**
   * The picked names are the names from `from` on outside `seen`; when fewer
   * than `room` positions are picked, every such name is picked.
   */
  lemma {:induction false} PicksCover(inf: Inference, ranked: seq<nat>, from: nat, seen: set<string>, room: nat, ps: seq<nat>)
    requires InRange(inf, ranked) && from <= |ranked|
    requires ps == Picks(inf, ranked, from, seen, room)
    ensures PickedNames(inf, ranked, ps) <= NamesFrom(inf, ranked, from) - seen
    ensures |ps| < room ==> PickedNames(inf, ranked, ps) == NamesFrom(inf, ranked, from) - seen
    decreases |ranked| - from
  {
    if room == 0 || from == |ranked| {
      assert ps == [];
      assert PickedNames(inf, ranked, ps) == {};
    } else {
      var name := NameAt(inf, ranked, from);
      NamesFromUnfold(inf, ranked, from);
      if name in seen {
        PicksCover(inf, ranked, from + 1, seen, room, ps);
      } else {
        var rest := Picks(inf, ranked, from + 1, seen + {name}, room - 1);
        PicksCover(inf, ranked, from + 1, seen + {name}, room - 1, rest);
        PickedNamesCons(inf, ranked, from, rest);
      }
    }
  }

  lemma NamesFromUnfold(inf: Inference, ranked: seq<nat>, from: nat)
    requires InRange(inf, ranked) && from < |ranked|
    ensures NamesFrom(inf, ranked, from) == {NameAt(inf, ranked, from)} + NamesFrom(inf, ranked, from + 1)
  {
    forall x | x in NamesFrom(inf, ranked, from) ensures x in {NameAt(inf, ranked, from)} + NamesFrom(inf, ranked, from + 1) {
      var p :| from <= p < |ranked| && NameAt(inf, ranked, p) == x;
      if p > from { assert x in NamesFrom(inf, ranked, from + 1); }
    }
  }

  lemma PickedNamesCons(inf: Inference, ranked: seq<nat>, p: nat, rest: seq<nat>)
    requires InRange(inf, ranked) && p < |ranked|
    requires forall j | 0 <= j < |rest| :: rest[j] < |ranked|
    ensures PickedNames(inf, ranked, [p] + rest) == {NameAt(inf, ranked, p)} + PickedNames(inf, ranked, rest)
  {
    var ps := [p] + rest;
    forall x | x in PickedNames(inf, ranked, ps) ensures x in {NameAt(inf, ranked, p)} + PickedNames(inf, ranked, rest) {
      var j :| 0 <= j < |ps| && NameAt(inf, ranked, ps[j]) == x;
      if j > 0 { assert ps[j] == rest[j - 1]; }
    }
    forall x | x in PickedNames(inf, ranked, rest) ensures x in PickedNames(inf, ranked, ps) {
      var j :| 0 <= j < |rest| && NameAt(inf, ranked, rest[j]) == x;
      assert ps[j + 1] == rest[j];
    }
    assert NameAt(inf, ranked, ps[0]) in PickedNames(inf, ranked, ps);
  }

  /**
   * A position from `from` on whose name is neither in `seen` nor at any
   * picked position comes after every picked position.
   */
  lemma {:induction false} PicksOmitted(inf: Inference, ranked: seq<nat>, from: nat, seen: set<string>, room: nat, ps: seq<nat>, q: nat)
    requires InRange(inf, ranked) && from <= q < |ranked|
    requires ps == Picks(inf, ranked, from, seen, room)
    requires NameAt(inf, ranked, q) !in seen
    requires forall k | 0 <= k < |ps| :: NameAt(inf, ranked, ps[k]) != NameAt(inf, ranked, q)
    ensures forall j | 0 <= j < |ps| :: ps[j] < q
    decreases |ranked| - from
  {
    if room != 0 && from < |ranked| {
      var name := NameAt(inf, ranked, from);
      if name in seen {
        if from < q {
          PicksOmitted(inf, ranked, from + 1, seen, room, ps, q);
        }
      } else {
        var rest := Picks(inf, ranked, from + 1, seen + {name}, room - 1);
        assert ps == [from] + rest;
        assert NameAt(inf, ranked, ps[0]) != NameAt(inf, ranked, q);
        forall k | 0 <= k < |rest| ensures NameAt(inf, ranked, rest[k]) != NameAt(inf, ranked, q) {
          assert rest[k] == ps[k + 1];
        }
        PicksOmitted(inf, ranked, from + 1, seen + {name}, room - 1, rest, q);
        forall j | 0 <= j < |ps| ensures ps[j] < q {
          if j > 0 {
            assert ps[j] == rest[j - 1];
          }
        }
      }
    }
  }

  /** The entries for the picked positions, in pick order. */
  function Entries(inf: Inference, table: seq<CropRecord>, ranked: seq<nat>, ps: seq<nat>): (r: seq<Prediction>)
    requires InRange(inf, ranked)
    requires forall j | 0 <= j < |ps| :: ps[j] < |ranked|
    ensures |r| == |ps|
    ensures forall j | 0 <= j < |ps| :: r[j] == Estimate(inf, table, ranked[ps[j]])
  {
    seq(|ps|, j requires 0 <= j < |ps| => Estimate(inf, table, ranked[ps[j]]))
  }

  /** The top-3 response for one request: the entries of the positions picked from the whole ranking. */
  function TopCrops(inf: Inference, table: seq<CropRecord>): seq<Prediction>
    requires ValidRanking(inf)
  {
    Entries(inf, table, inf.ranking, Picks(inf, inf.ranking, 0, {}, TOP_K))
  }

  /** The names of a list of entries. */
  function Names(results: seq<Prediction>): (names: seq<string>)
    ensures |names| == |results|
    ensures forall j | 0 <= j < |results| :: names[j] == results[j].crop
  {
    seq(|results|, j requires 0 <= j < |results| => results[j].crop)
  }

  /** Every name of the label space is the name of some position of the ranking. */
  lemma RankingNames(inf: Inference)
    requires ValidRanking(inf)
    ensures NamesFrom(inf, inf.ranking, 0) == Elems(inf.classes)
  {
    forall x | x in Elems(inf.classes) ensures x in NamesFrom(inf, inf.ranking, 0) {
      var i :| 0 <= i < |inf.classes| && inf.classes[i] == x;
      assert i in inf.ranking;
      var p :| 0 <= p < |inf.ranking| && inf.ranking[p] == i;
      assert NameAt(inf, inf.ranking, p) == x;
    }
  }

  /**
   * The top-3 response names distinct crops of the label space: at most
   * three, exactly min(3, number of distinct class names), and all of them
   * when there are fewer than three.
   */
  lemma TopCropsDistinct(inf: Inference, table: seq<CropRecord>, r: seq<Prediction>)
    requires ValidRanking(inf) && r == TopCrops(inf, table)
    ensures |r| <= TOP_K
    ensures Distinct(Names(r))
    ensures Elems(Names(r)) <= Elems(inf.classes)
    ensures |r| == (if |Elems(inf.classes)| < TOP_K then |Elems(inf.classes)| else TOP_K)
    ensures |Elems(inf.classes)| < TOP_K ==> Elems(Names(r)) == Elems(inf.classes)
  {
    var ps := Picks(inf, inf.ranking, 0, {}, TOP_K);
    TopCropsNames(inf, table, r);
    PicksCover(inf, inf.ranking, 0, {}, TOP_K, ps);
    RankingNames(inf);
    DistinctCard(Names(r));
    SubsetCard(Elems(Names(r)), Elems(inf.classes));
  }

  /** The response's names are the picked names, without repetition. */
  lemma TopCropsNames(inf: Inference, table: seq<CropRecord>, r: seq<Prediction>)
    requires ValidRanking(inf) && r == TopCrops(inf, table)
    ensures Distinct(Names(r))
    ensures Elems(Names(r)) == PickedNames(inf, inf.ranking, Picks(inf, inf.ranking, 0, {}, TOP_K))
  {
    var ranking := inf.ranking;
    var ps := Picks(inf, ranking, 0, {}, TOP_K);
    PicksFirstOccurrences(inf, ranking, 0, {}, TOP_K, ps);
    forall x | x in PickedNames(inf, ranking, ps) ensures x in Elems(Names(r)) {
      var j :| 0 <= j < |ps| && NameAt(inf, ranking, ps[j]) == x;
      assert Names(r)[j] == x;
    }
  }

  /** The confidences of the top-3 response never increase down the list. */
  lemma TopCropsDescending(inf: Inference, table: seq<CropRecord>, r: seq<Prediction>)
    requires ValidRanking(inf) && r == TopCrops(inf, table)
    ensures forall j, k | 0 <= j < k < |r| :: r[j].confidence >= r[k].confidence
  {
    var ps := Picks(inf, inf.ranking, 0, {}, TOP_K);
    forall j, k | 0 <= j < k < |r| ensures r[j].confidence >= r[k].confidence {
      assert ps[j] < ps[k];
      assert inf.probabilities[inf.ranking[ps[j]]] >= inf.probabilities[inf.ranking[ps[k]]];
    }
  }

  /**
   * Each entry's confidence is the highest probability of any class carrying
   * its crop name: a repeated label is reported with its best class.
   */
  lemma TopCropsBestOfName(inf: Inference, table: seq<CropRecord>, r: seq<Prediction>)
    requires ValidRanking(inf) && r == TopCrops(inf, table)
    ensures forall j, i | 0 <= j < |r| && 0 <= i < |inf.classes| && inf.classes[i] == r[j].crop ::
      inf.probabilities[i] * 100.0 <= r[j].confidence
  {
    var ranking := inf.ranking;
    var ps := Picks(inf, ranking, 0, {}, TOP_K);
    PicksFirstOccurrences(inf, ranking, 0, {}, TOP_K, ps);
    forall j, i | 0 <= j < |r| && 0 <= i < |inf.classes| && inf.classes[i] == r[j].crop
      ensures inf.probabilities[i] * 100.0 <= r[j].confidence
    {
      assert i in ranking;
      var q :| 0 <= q < |ranking| && ranking[q] == i;
      assert NameAt(inf, ranking, q) == NameAt(inf, ranking, ps[j]);
      if q != ps[j] {
        assert inf.probabilities[ranking[ps[j]]] >= inf.probabilities[ranking[q]];
      }
    }
  }

  /**
   * A crop name left out of the top-3 response has no class more probable
   * than any entry of the response.
   */
  lemma TopCropsOmitted(inf: Inference, table: seq<CropRecord>, r: seq<Prediction>)
    requires ValidRanking(inf) && r == TopCrops(inf, table)
    ensures forall j, i | 0 <= j < |r| && 0 <= i < |inf.classes| && inf.classes[i] !in Names(r) ::
      inf.probabilities[i] * 100.0 <= r[j].confidence
  {
    var ranking := inf.ranking;
    var ps := Picks(inf, ranking, 0, {}, TOP_K);
    forall j, i | 0 <= j < |r| && 0 <= i < |inf.classes| && inf.classes[i] !in Names(r)
      ensures inf.probabilities[i] * 100.0 <= r[j].confidence
    {
      assert i in ranking;
      var q :| 0 <= q < |ranking| && ranking[q] == i;
      forall k | 0 <= k < |ps| ensures NameAt(inf, ranking, ps[k]) != NameAt(inf, ranking, q) {
        assert Names(r)[k] == NameAt(inf, ranking, ps[k]);
      }
      PicksOmitted(inf, ranking, 0, {}, TOP_K, ps, q);
      assert inf.probabilities[ranking[ps[j]]] >= inf.probabilities[ranking[q]];
    }
  }

  /**
   * Each entry's figures: the mean yield and mean price of the table rows
   * named exactly like the crop when there are any, the regressors' outputs
   * otherwise, and the revenue 0.01 * yield * price.
   */
  lemma TopCropsFigures(inf: Inference, table: seq<CropRecord>, r: seq<Prediction>)
    requires ValidRanking(inf) && r == TopCrops(inf, table)
    ensures forall j | 0 <= j < |r| ::
      var rows := NamedRows(table, r[j].crop);
      && (|rows| > 0 ==> r[j].yieldKgPerHa == Mean(Yields(rows)) && r[j].pricePerQuintal == Mean(Prices(rows)))
      && (|rows| == 0 ==> r[j].yieldKgPerHa == inf.yieldEstimate && r[j].pricePerQuintal == inf.priceEstimate)
      && r[j].estimatedRevenue == 0.01 * r[j].yieldKgPerHa * r[j].pricePerQuintal
  {
  }

  /**
   * The loop state of `PredictTopCrops` before position `i`: the positions
   * picked so far, followed by what the ranking rule picks from `i` on, are
   * the positions it picks from the whole ranking, and the response so far
   * holds the picked positions' entries.
   */
  predicate LoopState(inf: Inference, table: seq<CropRecord>, i: nat, seen: set<string>, picked: seq<nat>, topCrops: seq<Prediction>)
    requires InRange(inf, inf.ranking) && i <= |inf.ranking|
  {
    && |picked| < TOP_K && |topCrops| == |picked|
    && (forall j | 0 <= j < |picked| :: picked[j] < i)
    && picked + Picks(inf, inf.ranking, i, seen, TOP_K - |picked|) == Picks(inf, inf.ranking, 0, {}, TOP_K)
    && topCrops == Entries(inf, table, inf.ranking, picked)
  }

  /** Skipping a position whose name was already emitted keeps the loop state. */
  lemma SkipStep(inf: Inference, table: seq<CropRecord>, i: nat, seen: set<string>, picked: seq<nat>, topCrops: seq<Prediction>)
    requires InRange(inf, inf.ranking) && i < |inf.ranking|
    requires LoopState(inf, table, i, seen, picked, topCrops)
    requires NameAt(inf, inf.ranking, i) in seen
    ensures LoopState(inf, table, i + 1, seen, picked, topCrops)
  {
  }

  /** One step of the ranking rule at a position whose name is new. */
  lemma PicksNew(inf: Inference, ranked: seq<nat>, from: nat, seen: set<string>, room: nat)
    requires InRange(inf, ranked) && from < |ranked| && room > 0
    requires NameAt(inf, ranked, from) !in seen
    ensures Picks(inf, ranked, from, seen, room)
      == [from] + Picks(inf, ranked, from + 1, seen + {NameAt(inf, ranked, from)}, room - 1)
  {
  }

  /** Picking one more position appends its entry. */
  lemma EntriesAppend(inf: Inference, table: seq<CropRecord>, ranked: seq<nat>, ps: seq<nat>, p: nat)
    requires InRange(inf, ranked) && p < |ranked|
    requires forall j | 0 <= j < |ps| :: ps[j] < |ranked|
    ensures Entries(inf, table, ranked, ps + [p]) == Entries(inf, table, ranked, ps) + [Estimate(inf, table, ranked[p])]
  {
    var ps' := ps + [p];
    assert forall j | 0 <= j < |ps| :: ps'[j] == ps[j];
  }

  /** Emitting the entry of a new name, with room left, extends the loop state. */
  lemma PickExtends(inf: Inference, table: seq<CropRecord>, i: nat, seen: set<string>, picked: seq<nat>, topCrops: seq<Prediction>, topCrops': seq<Prediction>)
    requires InRange(inf, inf.ranking) && i < |inf.ranking|
    requires LoopState(inf, table, i, seen, picked, topCrops)
    requires NameAt(inf, inf.ranking, i) !in seen && |picked| + 1 < TOP_K
    requires topCrops' == topCrops + [Estimate(inf, table, inf.ranking[i])]
    ensures LoopState(inf, table, i + 1, seen + {NameAt(inf, inf.ranking, i)}, picked + [i], topCrops')
    ensures |topCrops'| < TOP_K
  {
    var room := TOP_K - |picked|;
    var rest := Picks(inf, inf.ranking, i + 1, seen + {NameAt(inf, inf.ranking, i)}, room - 1);
    PicksNew(inf, inf.ranking, i, seen, room);
    assert picked + ([i] + rest) == picked + [i] + rest;
    EntriesAppend(inf, table, inf.ranking, picked, i);
  }

  /** Emitting the entry of the third new name completes the response. */
  lemma PickCompletes(inf: Inference, table: seq<CropRecord>, i: nat, seen: set<string>, picked: seq<nat>, topCrops: seq<Prediction>, topCrops': seq<Prediction>)
    requires ValidRanking(inf) && i < |inf.ranking|
    requires LoopState(inf, table, i, seen, picked, topCrops)
    requires NameAt(inf, inf.ranking, i) !in seen && |picked| + 1 == TOP_K
    requires topCrops' == topCrops + [Estimate(inf, table, inf.ranking[i])]
    ensures topCrops' == TopCrops(inf, table) && |topCrops'| == TOP_K
  {
    PicksNew(inf, inf.ranking, i, seen, 1);
    assert Picks(inf, inf.ranking, i + 1, seen + {NameAt(inf, inf.ranking, i)}, 0) == [];
    EntriesAppend(inf, table, inf.ranking, picked, i);
  }

  /** At the end of the ranking nothing is left to pick: the response is complete. */
  lemma EndState(inf: Inference, table: seq<CropRecord>, seen: set<string>, picked: seq<nat>, topCrops: seq<Prediction>)
    requires ValidRanking(inf)
    requires LoopState(inf, table, |inf.ranking|, seen, picked, topCrops)
    ensures topCrops == TopCrops(inf, table)
  {
    assert Picks(inf, inf.ranking, |inf.ranking|, seen, TOP_K - |picked|) == [];
  }

  /**
   * The body of one emitted entry: the class's name and probability as a
   * percentage; when the table has rows named exactly like the class, a
   * yield and a price within the range of those rows' figures (their
   * means); otherwise the regressors' outputs; and the revenue from the two.
   */
  method CropEntry(inf: Inference, table: seq<CropRecord>, idx: nat) returns (entry: Prediction)
    requires idx < |inf.classes| && idx < |inf.probabilities|
    ensures entry.crop == inf.classes[idx] && entry.confidence == inf.probabilities[idx] * 100.0
    ensures |NamedRows(table, inf.classes[idx])| > 0 ==>
      && Min(Yields(NamedRows(table, inf.classes[idx]))) <= entry.yieldKgPerHa <= Max(Yields(NamedRows(table, inf.classes[idx])))
      && Min(Prices(NamedRows(table, inf.classes[idx]))) <= entry.pricePerQuintal <= Max(Prices(NamedRows(table, inf.classes[idx])))
    ensures |NamedRows(table, inf.classes[idx])| == 0 ==>
      entry.yieldKgPerHa == inf.yieldEstimate && entry.pricePerQuintal == inf.priceEstimate
    ensures entry.estimatedRevenue == Revenue(entry.yieldKgPerHa, entry.pricePerQuintal)
    ensures entry == Estimate(inf, table, idx)
  {
    var cropName := inf.classes[idx];
    var confidence := inf.probabilities[idx] * 100.0;
    var cropRows := NamedRows(table, cropName);
    var predictedYield, predictedPrice;
    if |cropRows| > 0 {
      predictedYield := Mean(Yields(cropRows));
      predictedPrice := Mean(Prices(cropRows));
    } else {
      predictedYield := inf.yieldEstimate;
      predictedPrice := inf.priceEstimate;
    }
    var revenue := 0.01 * predictedYield * predictedPrice;
    assert revenue == Revenue(predictedYield, predictedPrice);
    entry := Prediction(cropName, confidence, predictedYield, predictedPrice, revenue);
    EstimateFigures(inf, table, idx);
  }

  /**
   * `predict_top_crops`: walk the classes by non-increasing probability,
   * skip names already emitted, and stop after three distinct crops.
   */
  method PredictTopCrops(inf: Inference, table: seq<CropRecord>) returns (topCrops: seq<Prediction>)
    requires ValidRanking(inf)
    ensures topCrops == TopCrops(inf, table)
  {
    topCrops := [];
    ghost var picked: seq<nat> := [];
    ghost var complete := false;
    var seen: set<string> := {};
    for i := 0 to |inf.ranking|
      invariant LoopState(inf, table, i, seen, picked, topCrops)
    {
      var idx := inf.ranking[i];
      var cropName := inf.classes[idx];
      if cropName in seen {
        SkipStep(inf, table, i, seen, picked, topCrops);
        continue;
      }
      var entry := CropEntry(inf, table, idx);
      var topCrops' := topCrops + [entry];
      if |picked| + 1 < TOP_K {
        PickExtends(inf, table, i, seen, picked, topCrops, topCrops');
      } else {
        PickCompletes(inf, table, i, seen, picked, topCrops, topCrops');
      }
      seen := seen + {cropName};
      topCrops := topCrops';
      picked := picked + [i];
      if |topCrops| == TOP_K {
        complete := true;
        break;
      }
    }
    if !complete {
      EndState(inf, table, seen, picked, topCrops);
    }
  }
}
