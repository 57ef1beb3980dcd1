/**
 * translate_words_separately(text, source_lang): best-effort translation
 * into Polish, one whitespace token at a time, against an external
 * translation service given here as two functions: constructing a
 * translator for a (source, target) pair, which may fail, and that
 * translator's reply for one word.
 */
module Translation {
  import opened Wrappers
  import opened Text

  /** The catalog's language, the target of every translation. */
  const Target: string := "pl"

  /**
   * The translator's reply for one word: a translation, a value that is
   * not a string (kept in the list, it makes the final join raise), or an
   * exception (caught; the word is kept as it was).
   */
  datatype Reply = Translated(text: string) | NotText | Failed

  /** A constructed translator. */
  type Translator = string -> Reply

  /** Constructing a translator for (source, target); None when construction raises. */
  type Service = (string, string) -> Option<Translator>

  /** What a call returned, or that it raised. */
  datatype Attempt = Returned(text: string) | Raised

  /** What the loop appends for `word`: the reply's value, or the word itself on failure. */
  function Output(word: string, reply: Reply): Option<string> {
    match reply
    case Translated(t) => Some(t)
    case NotText => None
    case Failed => Some(word)
  }

  /** The list the loop builds: one entry per token, in order. */
  function Outputs(words: seq<string>, translate: Translator): (outs: seq<Option<string>>)
    ensures |outs| == |words|
  {
    if words == [] then []
    else Outputs(words[..|words| - 1], translate) + [Output(words[|words| - 1], translate(words[|words| - 1]))]
  }

  /** The strings of `outs`, when every entry is one. */
  function Strings(outs: seq<Option<string>>): (ss: Option<seq<string>>)
    ensures ss.Some? <==> forall k :: 0 <= k < |outs| ==> outs[k].Some?
    ensures ss.Some? ==> |ss.value| == |outs| && forall k :: 0 <= k < |outs| ==> ss.value[k] == outs[k].value
  {
    if outs == [] then Some([])
    else
      match Strings(outs[..|outs| - 1])
      case None => None
      case Some(init) =>
        if outs[|outs| - 1].Some? then Some(init + [outs[|outs| - 1].value]) else None
  }

  /** " ".join(outs): raises when some entry is not a string. */
  function JoinOutputs(outs: seq<Option<string>>): Attempt {
    match Strings(outs)
    case Some(ss) => Returned(JoinSpace(ss))
    case None => Raised
  }

  /** What translate_words_separately(text, source) returns or raises. */
  function TranslatedText(text: string, source: string, service: Service): Attempt {
    match service(source, Target)
    case None => Returned(text)
    case Some(translate) => JoinOutputs(Outputs(Words(text), translate))
  }

  /** translate_words_separately, with its loop. */
  method TranslateWordsSeparately(text: string, source: string, service: Service) returns (r: Attempt)
    ensures r == TranslatedText(text, source, service)
  {
    WordsStrip(text);
    var words := Words(Strip(text));
    var outs: seq<Option<string>> := [];
    var session := service(source, Target);
    if session.None? {
      return Returned(text);
    }
    var translate := session.value;
    for i := 0 to |words|
      invariant outs == Outputs(words[..i], translate)
    {
      assert words[..i + 1][..i] == words[..i];
      var w := words[i];
      match translate(w)
      case Translated(t) =>
        outs := outs + [Some(t)];
      case NotText =>
        outs := outs + [None];
      case Failed =>
        outs := outs + [Some(w)];
    }
    assert words[..|words|] == words;
    r := JoinOutputs(outs);
  }

  /** When no translator can be constructed, the text comes back unchanged. */
  lemma NoTranslatorKeepsText(text: string, source: string, service: Service)
    requires service(source, Target).None?
    ensures TranslatedText(text, source, service) == Returned(text)
  {
  }

  /** Entry k of the list is the output for token k. */
  lemma {:induction false} OutputsAt(words: seq<string>, translate: Translator, k: nat)
    requires k < |words|
    ensures Outputs(words, translate)[k] == Output(words[k], translate(words[k]))
    decreases |words|
  {
    var n := |words| - 1;
    if k < n {
      OutputsAt(words[..n], translate, k);
    }
  }

  /**
   * When no reply is a non-string, the result is the single-space join of
   * one output per token, in order: the translation, or the token kept
   * verbatim where translating it failed.
   */
  lemma JoinOfOutputs(text: string, source: string, service: Service, translate: Translator)
    requires service(source, Target) == Some(translate)
    requires forall w :: w in Words(text) ==> !translate(w).NotText?
    ensures exists ss ::
      && TranslatedText(text, source, service) == Returned(JoinSpace(ss))
      && |ss| == |Words(text)|
      && forall k :: 0 <= k < |ss| ==>
        ss[k] == match translate(Words(text)[k]) { case Translated(t) => t case _ => Words(text)[k] }
  {
    var words := Words(text);
    var outs := Outputs(words, translate);
    forall k | 0 <= k < |outs| ensures outs[k].Some? {
      OutputsAt(words, translate, k);
      assert words[k] in words;
    }
    var ss := Strings(outs).value;
    forall k | 0 <= k < |ss|
      ensures ss[k] == match translate(words[k]) { case Translated(t) => t case _ => words[k] }
    {
      OutputsAt(words, translate, k);
      assert words[k] in words;
    }
  }

  /**
   * When every word fails, the result is the whitespace-normalised text:
   * its tokens joined by single spaces, so that it splits into the same
   * tokens again.
   */
  lemma AllFailuresNormalise(text: string, source: string, service: Service, translate: Translator)
    requires service(source, Target) == Some(translate)
    requires forall w :: w in Words(text) ==> translate(w) == Failed
    ensures TranslatedText(text, source, service) == Returned(JoinSpace(Words(text)))
    ensures Words(JoinSpace(Words(text))) == Words(text)
  {
    var words := Words(text);
    var outs := Outputs(words, translate);
    forall k | 0 <= k < |outs| ensures outs[k] == Some(words[k]) {
      OutputsAt(words, translate, k);
      assert words[k] in words;
    }
    assert Strings(outs).value == words;
    WordsNormalised(text);
  }

  /**
   * A non-string reply for any word makes the whole call raise, even when
   * the other words were translated.
   */
  lemma NonStringRaises(text: string, source: string, service: Service, translate: Translator, k: nat)
    requires service(source, Target) == Some(translate)
    requires k < |Words(text)| && translate(Words(text)[k]) == NotText
    ensures TranslatedText(text, source, service) == Raised
  {
    OutputsAt(Words(text), translate, k);
  }

  /** A translator that knows "tomato" and fails on every other word. */
  function TomatoOnly(w: string): Reply {
    if w == "tomato" then Translated("pomidor") else Failed
  }

  lemma TomatoOnionTokens()
    ensures Words("tomato onion") == ["tomato", "onion"]
  {
    assert IsWord("tomato") && IsWord("onion");
    assert JoinSpace(["tomato", "onion"]) == "tomato onion";
    WordsOfJoin(["tomato", "onion"]);
  }

  lemma TomatoThenOnion(text: string, service: Service)
    requires service("en", Target) == Some(TomatoOnly)
    requires Words(text) == ["tomato", "onion"]
    ensures TranslatedText(text, "en", service) == Returned("pomidor onion")
  {
    var words := ["tomato", "onion"];
    var outs := Outputs(words, TomatoOnly);
    OutputsAt(words, TomatoOnly, 0);
    OutputsAt(words, TomatoOnly, 1);
    assert outs == [Some("pomidor"), Some("onion")];
    var ss := Strings(outs).value;
    assert ss[0] == "pomidor" && ss[1] == "onion";
    assert ss == ["pomidor", "onion"];
    assert JoinSpace(ss) == "pomidor onion";
    assert JoinOutputs(outs) == Returned("pomidor onion");
  }

  /** "tomato onion" with "onion" failing becomes "pomidor onion". */
  lemma TomatoOnion(service: Service)
    requires service("en", Target) == Some(TomatoOnly)
    ensures TranslatedText("tomato onion", "en", service) == Returned("pomidor onion")
  {
    TomatoOnionTokens();
    TomatoThenOnion("tomato onion", service);
  }
}
