/**
 * The translation routes and the fixed tables they serve: the label
 * translations for each supported language and the list of languages the
 * user interface offers.
 */
module Translations {
  import opened Collections
  import opened Responses
  import Reports

  /** The labels every language translates. */
  const LABEL_KEYS: set<string> :=
    {"nitrogen", "phosphorus", "potassium", "temperature", "humidity", "ph_value",
     "rainfall", "crop", "yield", "price", "revenue"}

  /** Label translations, by language code. */
  const TRANSLATIONS: map<string, map<string, string>> := map[
    "en" := map[
      "nitrogen" := "Nitrogen",
      "phosphorus" := "Phosphorus",
      "potassium" := "Potassium",
      "temperature" := "Temperature",
      "humidity" := "Humidity",
      "ph_value" := "pH Value",
      "rainfall" := "Rainfall",
      "crop" := "Crop",
      "yield" := "Yield",
      "price" := "Price",
      "revenue" := "Revenue"
    ],
    "hi" := map[
      "nitrogen" := "नाइट्रोजन",
      "phosphorus" := "फास्फोरस",
      "potassium" := "पोटैशियम",
      "temperature" := "तापमान",
      "humidity" := "आर्द्रता",
      "ph_value" := "पीएच मान",
      "rainfall" := "वर्षा",
      "crop" := "फसल",
      "yield" := "उपज",
      "price" := "मूल्य",
      "revenue" := "राजस्व"
    ],
    "mr" := map[
      "nitrogen" := "नायट्रोजन",
      "phosphorus" := "फॉस्फरस",
      "potassium" := "पोटॅशियम",
      "temperature" := "तापमान",
      "humidity" := "आर्द्रता",
      "ph_value" := "पीएच मूल्य",
      "rainfall" := "पाऊस",
      "crop" := "पीक",
      "yield" := "उत्पन्न",
      "price" := "किंमत",
      "revenue" := "महसूल"
    ]
  ]

  /** A language the interface offers: its code and its name in that language. */
  datatype Language = Language(code: string, name: string)

  const LANGUAGES: seq<Language> :=
    [Language("en", "English"), Language("hi", "हिंदी"), Language("mr", "मराठी")]

  /** The body of a successful translations response. */
  datatype TranslationSet = TranslationSet(language: string, translations: map<string, string>)

  /**
   * GET /translations/{lang}: the labels of a supported language, echoed
   * with its code; 404 "Language not supported" for any other code.
   */
  function GetTranslations(lang: string): (r: Response<TranslationSet>)
    ensures r.HttpError? <==> lang !in TRANSLATIONS
    ensures r.HttpError? ==> r.status == NOT_FOUND && r.detail == "Language not supported"
    ensures r.Ok? ==> r.body.language == lang && r.body.translations == TRANSLATIONS[lang]
    ensures r.Ok? ==> r.body.translations.Keys == LABEL_KEYS
  {
    if lang !in TRANSLATIONS then HttpError(NOT_FOUND, "Language not supported")
    else Ok(TranslationSet(lang, TRANSLATIONS[lang]))
  }

  /** The codes of a list of languages. */
  function Codes(languages: seq<Language>): (codes: seq<string>)
    ensures |codes| == |languages|
    ensures forall i | 0 <= i < |languages| :: codes[i] == languages[i].code
  {
    seq(|languages|, i requires 0 <= i < |languages| => languages[i].code)
  }

  /**
   * GET /languages: the offered languages, each listed once, and exactly
   * the languages that have translations.
   */
  function GetLanguages(): (r: Response<seq<Language>>)
    ensures r.Ok?
    ensures Distinct(Codes(r.body))
    ensures Elems(Codes(r.body)) == TRANSLATIONS.Keys
  {
    LanguageCodes();
    Ok(LANGUAGES)
  }

  /** The offered codes are the translated codes, in the order en, hi, mr. */
  lemma LanguageCodes()
    ensures Codes(LANGUAGES) == ["en", "hi", "mr"]
    ensures Elems(Codes(LANGUAGES)) == TRANSLATIONS.Keys
  {
    var codes := Codes(LANGUAGES);
    assert codes == ["en", "hi", "mr"];
    assert Elems(codes) == {"en", "hi", "mr"} by {
      assert forall x | x in codes :: x in {"en", "hi", "mr"};
      assert codes[0] in codes && codes[1] in codes && codes[2] in codes;
    }
  }

  /** Every offered language can be requested from GET /translations/{lang}. */
  lemma OfferedLanguagesTranslated(lang: Language)
    requires lang in GetLanguages().body
    ensures GetTranslations(lang.code).Ok?
  {
    var codes := Codes(GetLanguages().body);
    var i :| 0 <= i < |LANGUAGES| && LANGUAGES[i] == lang;
    assert codes[i] == lang.code;
  }

  /**
   * The English labels of the seven measurements are the row labels of the
   * report's parameters table.
   */
  lemma EnglishMatchesReport()
    ensures var en := TRANSLATIONS["en"];
      [en["nitrogen"], en["phosphorus"], en["potassium"], en["temperature"],
       en["humidity"], en["ph_value"], en["rainfall"]] == Reports.PARAMETERS
  {
  }
}
