/**
 * The work of TranscribeThread.run after the model is loaded: choose the
 * transcription options from the language hint, transcribe, strip the
 * text, translate it into Polish unless the hint is "pl" (falling back to
 * the untranslated text when translation raises), and detect the catalog
 * ingredients in the result. The speech model and the translation service
 * are parameters.
 */
module Pipeline {
  import opened Sequences
  import opened Wrappers
  import opened Text
  import opened Catalog
  import opened Translation
  import opened Extractor
  import opened RecipeFilter

  /** The hint that lets the speech model detect the language itself. */
  const Auto: string := "auto"

  /** The extra keyword options passed to model.transcribe. */
  datatype AsrOptions = AsrOptions(language: Option<string>, task: Option<string>)

  /** What model.transcribe returns: the text and, when present, the detected language. */
  datatype Transcription = Transcription(text: string, language: Option<string>)

  /** The three values the run delivers: the text, its translation, the detected ingredients. */
  datatype PipelineResult = PipelineResult(text: string, translated: string, detected: seq<string>)

  /** Options for the speech model: a forced language unless the hint is "auto". */
  function OptionsFor(hint: string): (o: AsrOptions)
    ensures o.language.Some? <==> hint != Auto
    ensures o.language.Some? ==> o.language == Some(hint) && o.task == Some("transcribe")
    ensures o.language.None? ==> o.task.None?
  {
    if hint != Auto then AsrOptions(Some(hint), Some("transcribe")) else AsrOptions(None, None)
  }

  /** result.get("language", "unknown"). */
  function LanguageOf(t: Transcription): string {
    t.language.GetOr("unknown")
  }

  /**
   * The language the text is translated from, or None when translation is
   * skipped. Only the hint "pl" skips it; with "auto" the detected language
   * is the source, even when that language is Polish.
   */
  function TranslationSource(hint: string, detected: string): (src: Option<string>)
    ensures src.None? <==> hint == "pl"
    ensures src.Some? && hint == Auto ==> src.value == detected
    ensures src.Some? && hint != Auto ==> src.value == hint
  {
    if hint != "pl" then Some(if hint == Auto then detected else hint) else None
  }

  /** The translated text: the stripped text itself when translation is skipped or raises. */
  function Normalised(hint: string, text: string, detected: string, service: Service): string {
    match TranslationSource(hint, detected)
    case None => text
    case Some(source) =>
      match TranslatedText(text, source, service)
      case Returned(t) => t
      case Raised => text
  }

  /**
   * One run, from the options given to the speech model to the detected
   * ingredients. `vocab` is list(set(...)) of the catalog's ingredients,
   * whose order the model leaves open.
   */
  method Run(hint: string, transcribe: AsrOptions -> Transcription, service: Service, vocab: seq<string>)
    returns (result: PipelineResult)
    requires IsVocabulary(vocab, Recipes)
    ensures var t := transcribe(OptionsFor(hint));
      && result.text == Strip(t.text)
      && result.translated == Normalised(hint, result.text, LanguageOf(t), service)
      && result.detected == Extracted(result.translated, vocab)
    ensures hint == "pl" ==> result.translated == result.text
    ensures NoDuplicates(result.detected)
    ensures forall x :: x in result.detected ==> x in AllIngredients(Recipes)
  {
    var options := OptionsFor(hint);
    var t := transcribe(options);
    var text := Strip(t.text);
    var lang := t.language.GetOr("unknown");
    var translated: string;
    if hint != "pl" {
      var attempt := TranslateWordsSeparately(text, if hint == Auto then lang else hint, service);
      match attempt
      case Returned(s) =>
        translated := s;
      case Raised =>
        translated := text;
    } else {
      translated := text;
    }
    var detected := ExtractIngredients(translated, vocab);
    ExtractedNoDuplicates(translated, vocab);
    DetectedAreCatalogIngredients(translated, vocab);
    result := PipelineResult(text, translated, detected);
  }

  /** A deduplicated listing of the catalog's ingredients is a vocabulary. */
  lemma VocabularyExists()
    ensures IsVocabulary(Dedup(AllIngredients(Recipes)), Recipes)
  {
    AddAllProperties([], AllIngredients(Recipes));
  }

  /** The hint "pl" leaves the text untranslated, whatever the service does. */
  lemma PolishHintSkipsTranslation(text: string, detected: string, service: Service)
    ensures Normalised("pl", text, detected, service) == text
  {
  }

  /** Translating a blank text yields a blank text, whatever the service does. */
  lemma BlankStaysBlank(hint: string, text: string, detected: string, service: Service)
    requires AllSpace(text)
    ensures AllSpace(Normalised(hint, text, detected, service))
  {
    match TranslationSource(hint, detected)
    case None =>
    case Some(source) =>
      match service(source, Target)
      case None =>
      case Some(translate) =>
        assert Words(text) == [];
        assert Outputs([], translate) == [];
  }

  /**
   * A transcript that is empty or only whitespace detects no ingredient,
   * so the recipe filter fed with the detection selects no recipe. The
   * program itself delivers no result in this case (it emits once per
   * token); the second ensures describes the model's stages composed.
   */
  lemma BlankTranscriptFindsNothing(hint: string, t: Transcription, service: Service, vocab: seq<string>)
    requires AllSpace(Strip(t.text))
    ensures Extracted(Normalised(hint, Strip(t.text), LanguageOf(t), service), vocab) == []
    ensures Filtered(Recipes, Extracted(Normalised(hint, Strip(t.text), LanguageOf(t), service), vocab)) == []
  {
    BlankStaysBlank(hint, Strip(t.text), LanguageOf(t), service);
    BlankTextDetectsNothing(Normalised(hint, Strip(t.text), LanguageOf(t), service), vocab);
    EmptyRequest(Recipes);
  }
}
