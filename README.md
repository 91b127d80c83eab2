# Crop recommendation backend — verified model

This project models the request-handling core of a crop recommendation web
service (a FastAPI backend). The service answers five kinds of questions:

- **`POST /predict`** — the crop a trained classifier predicts for seven soil
  and climate measurements, its confidence (the largest class probability as a
  percentage), the yield and price two regressors predict, and the estimated
  revenue `0.01 × yield × price`.
- **`POST /predict-top-3`** — up to three *distinct* crops, walking the classes
  by non-increasing probability, skipping a crop name already emitted, and
  taking each crop's yield and price as the mean over the crop table's rows
  for that crop when it has any (the regressors' outputs otherwise).
- **`GET /crops`, `GET /crop-history/{name}`, `GET /crop-info/{name}`** — the
  sorted distinct crop names of the static crop table; the last 20 rows of a
  crop (matched case-insensitively) with min/mean/max of yield and price; the
  crop's mean yield, price, per-row revenue and feature values. Unknown crops
  give a 404.
- **`POST /generate-report`** — a PDF whose content is a parameters table
  (one row per measurement) and a recommendations table (one ranked row per
  top-3 crop).
- **`GET /translations/{lang}`, `GET /languages`** — fixed label translations
  for English, Hindi and Marathi, and the list of offered languages.

The trained models are not modelled. What they produce for one request is an
`Inference` value: the class probabilities, the class labels (a label may
repeat), the class indices by non-increasing probability (any such order is
accepted, since the sort that produces it is not stable), the predicted class
and the two regressor outputs. The routes' own logic is modelled on top of it.

Modules, one per source file plus shared helpers:

| module | file | models |
|---|---|---|
| `Predictions` | `predictions.dfy` | `routers/predictions.py`: `/predict`, the top-3 ranking loop |
| `Crops` | `crops.dfy` | `routers/crops.py`: catalogue, history, summary |
| `Reports` | `reports.dfy` | `routers/reports.py`: the two report tables |
| `Translations` | `translations.dfy` | `routers/translations.py` and the tables of `config.py` |
| `Dataset` | `dataset.dfy` | the crop table rows, request body, revenue formula, exact-name row filter |
| `Stats`, `Strings`, `Collections`, `Responses` | | sums, means, min/max; ASCII lower-casing, ordering, decimal numerals; distinct sequences; HTTP results |

The top-3 loop appears twice in the source (in the prediction route and in
the report route), identically apart from the keys of the result dictionaries.
It is modelled once, as `Predictions.PredictTopCrops`, and `Reports.GenerateReport`
calls it.

Its specification is `Predictions.Picks`: the positions of the ranking the rule
picks, defined recursively. `PredictTopCrops` is an imperative loop with
`continue` and `break`, proved equal to the entries at those positions. The
lemmas about `Picks` give what the route promises: distinct names, as many as
possible up to three, confidences in non-increasing order, each entry carrying
the best probability of its name, and no omitted crop more probable than a
returned one.

## Model

| member | source | states |
|---|---|---|
| Predictions.PredictCrop | routers/predictions.py:8-33 | the response names the classifier's class; its confidence is the probability of some class × 100 and no class has more; yield and price are the regressors' outputs; revenue is 0.01 × yield × price |
| Predictions.PredictCropFixture | routers/predictions.py:16-24 | rice at probability 0.875 with 3200 kg/ha at 2100 per quintal gives confidence 87.5 and revenue 67200 |
| Predictions.Picks | routers/predictions.py:49-76 | the picked positions: at most `room` of them, strictly increasing, all from `from` on, none carrying a name already seen |
| Predictions.PicksFirstOccurrences | routers/predictions.py:49-53 | a picked position is the first occurrence of its name from `from` on, and no two picked positions share a name |
| Predictions.PicksCover | routers/predictions.py:49-76 | the picked names are names from `from` on that were not seen; when fewer than `room` are picked, all such names are picked |
| Predictions.PicksOmitted | routers/predictions.py:44-76 | a position whose name is neither seen nor at any picked position comes after every picked position |
| Predictions.RankingNames | routers/predictions.py:44-50 | the names along the ranking are exactly the label space |
| Predictions.TopCropsNames | routers/predictions.py:47-53 | the response's crop names are pairwise distinct and are exactly the picked names |
| Predictions.TopCropsDistinct | routers/predictions.py:47-76 | at most 3 entries, with distinct names from the label space; exactly min(3, number of distinct labels) entries; every label when there are fewer than 3 |
| Predictions.TopCropsDescending | routers/predictions.py:44-55 | confidences never increase down the response |
| Predictions.TopCropsBestOfName | routers/predictions.py:44-55 | an entry's confidence is at least the probability × 100 of every class with the same name |
| Predictions.TopCropsOmitted | routers/predictions.py:44-76 | a class whose name is not in the response has probability × 100 at most every entry's confidence |
| Predictions.TopCropsFigures | routers/predictions.py:56-65 | each entry's yield and price are the means over the table rows with its exact name when there are any, the regressors' outputs otherwise; revenue is 0.01 × yield × price |
| Predictions.PredictTopCrops | routers/predictions.py:35-78 | the loop with `continue` and `break` returns exactly the entries of the positions the ranking rule picks (`TopCrops`), whose properties the lemmas above state |
| Predictions.CropEntry | routers/predictions.py:55-73 | the entry names the class and carries its probability × 100; when the table has rows with that exact name, yield and price lie between those rows' min and max; otherwise they are the regressors' outputs; revenue is 0.01 × yield × price; and the entry is the one the ranking rule's specification uses (`Estimate`) |
| Predictions.EstimateFigures | routers/predictions.py:55-65 | the same facts for every class's entry in the specification: name, probability × 100, yield and price within the range of the exact-name rows or the regressors' outputs, revenue 0.01 × yield × price |
| Predictions.SkipStep | routers/predictions.py:51-53 | skipping a name already emitted keeps the loop state |
| Predictions.PickExtends | routers/predictions.py:53-73 | emitting a new name with room left extends the loop state |
| Predictions.PickCompletes | routers/predictions.py:73-76 | emitting the third new name completes the response |
| Predictions.EndState | routers/predictions.py:49-78 | running out of classes completes the response |
| Dataset.NamedRows | routers/predictions.py:56 | the rows whose crop is exactly the given name: every such row of the table, and nothing else |
| Dataset.NamedRowsCount | routers/predictions.py:56 | the filter keeps duplicates: a row with the name occurs in the result as often as in the table, any other row not at all, so the means weigh every copy |
| Crops.Unique | routers/crops.py:11 | the distinct crop names: no repetition, same set of names |
| Crops.Insert | routers/crops.py:14 | inserting a new name into an ascending list keeps it strictly ascending and adds exactly that name |
| Crops.SortNames | routers/crops.py:14 | sorting distinct names gives a strictly ascending permutation |
| Crops.SortNamesKeepsNames | routers/crops.py:14 | sorting keeps the set of names and the count |
| Crops.AscendingIsDistinct | routers/crops.py:14 | a strictly ascending list has no duplicates |
| Crops.GetAllCrops | routers/crops.py:6-16 | the catalogue is strictly ascending, duplicate-free, holds exactly the table's crop names, and `total` is its length |
| Crops.MatchIndices | routers/crops.py:25 | the positions of the rows whose lower-cased crop equals the lower-cased query: all of them, increasing |
| Crops.MatchIndicesCaseInsensitive | routers/crops.py:25 | two queries that lower-case alike select the same rows |
| Crops.WheatInAnyCase | routers/crops.py:24-25 | "Wheat", "wheat" and "WHEAT" select the same rows |
| Crops.Recent | routers/crops.py:44-45 | the last min(n, limit) elements of a list |
| Crops.RecentHistoryMatches | routers/crops.py:33-45 | the history holds min(20, matches) entries, each a matching row's own figures, in table order, none older than a left-out match |
| Crops.HistoryRows | routers/crops.py:34-42 | the `iterrows` loop yields one point per selected row, with that row's index and figures, in order |
| Crops.GetCropHistory | routers/crops.py:18-58 | 404 "Crop '…' not found in database" exactly when no row matches; otherwise the full match count, the last 20 points, and min ≤ mean ≤ max of yield and price over all matches |
| Crops.GetCropInfo | routers/crops.py:65-95 | 404 "Crop '…' not found" exactly when no row matches; otherwise the match count and the means of yield, price and per-row revenue, each between the column's min and max |
| Crops.CropInfoCaseInsensitive | routers/crops.py:71 | queries that lower-case alike get the same summary |
| Crops.AverageRevenueIsNotRevenueOfAverages | routers/crops.py:84 | the summary's revenue is the mean of per-row revenues, which can differ from 0.01 × mean yield × mean price (0.03 against 0.04 on a two-row table) |
| Stats.Summarize | routers/crops.py:52-57 | min, mean and max of a non-empty column: min and max are elements and bound every element, and min ≤ mean ≤ max |
| Stats.MeanBetween | routers/crops.py:52-57 | the mean of a non-empty column lies between its min and max |
| Strings.Lower | routers/crops.py:25 | lower-casing keeps the length, leaves no upper-case letter, shifts each upper-case letter by 32 and keeps every other character |
| Strings.LessTransitive | routers/crops.py:14 | the code-point order the catalogue is sorted by is transitive |
| Strings.LessTotal | routers/crops.py:14 | any two different names are ordered one way or the other |
| Strings.ParseDecimalRoundTrip | routers/reports.py:121 | reading back a decimal numeral gives the number written |
| Reports.ParamsTable | routers/reports.py:87-96 | header and seven three-cell rows labelled Nitrogen … Rainfall in body order; reading the table back gives the request body |
| Reports.ParamsTableInjective | routers/reports.py:87-96 | different request bodies give different parameters tables |
| Reports.RankLabel | routers/reports.py:121 | a rank label is `#` followed by decimal digits |
| Reports.RecRowRoundTrip | routers/reports.py:119-127 | a recommendation row reads back as its rank and the recommendation's crop, confidence, yield, price and revenue |
| Reports.RecommendationTable | routers/reports.py:117-127 | the header, then row i reads back as rank i and the i-th recommendation |
| Reports.GenerateReport | routers/reports.py:15-127 | the parameters table reads back as the request body; the recommendations table has one row per top-3 entry (at most 3), each reading back as its rank and entry, and no crop twice |
| Translations.GetTranslations | routers/translations.py:6-10 | 404 "Language not supported" exactly when the code has no translations; otherwise the code echoed with its translations, which cover the eleven labels |
| Translations.GetLanguages | routers/translations.py:12-14 | the offered languages have distinct codes, exactly the codes that have translations |
| Translations.LanguageCodes | config.py:10-56 | the offered codes are en, hi, mr, and they are the keys of the translations table |
| Translations.OfferedLanguagesTranslated | routers/translations.py:6-14 | every offered language can be requested without a 404 |
| Translations.EnglishMatchesReport | config.py:11-18 | the English labels of the seven measurements are the row labels of the report's parameters table |

## Left out

- The classifier, the two regressors, the scaler and the label encoder: their outputs for a request are the `Inference` input. Which class the classifier predicts is an input as well, so `PredictCrop` does not state that it is the most probable class.
- Loading the models and the crop table at start-up, environment variables, the application entry point, the weather proxy and the 500 handlers that wrap unexpected exceptions: they are I/O or external calls.
- Rounding to two decimals and the string formatting of figures (`f"{x}"`, thousands separators, the rupee sign): figures stay exact reals, and a cell records how it is shown.
- `str.title()` on the echoed crop name is not modelled; the history and summary bodies carry no echoed name.
- Lower-casing is modelled for ASCII letters only; Python's full Unicode case mapping is not.
- The PDF layout, styles, title, footer and the generation timestamp in the report and its file name.
- Predictions.TopCropsDistinct: an empty label space gives an empty response; a fitted classifier always has at least one class, so the response then has 1 to 3 entries.
- Crops.GetCropInfo: the contract does not restate the seven feature means of `optimal_conditions`; the body computes them as column means like the other averages.
- The history index of a row is its position in the table (the table is read with a default row index).
- Crops.SortNames: sorting is by code point, as Python compares strings; the model sorts distinct names by insertion, not by the sort algorithm the runtime uses.
