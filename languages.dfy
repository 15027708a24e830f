/** The translation target catalog and the translation call, with the
    translation service's reply taken as an input. */
module Languages {
  import opened Js

  datatype Language = Language(name: string, code: string)

  const SUPPORTED_LANGUAGES: seq<Language> := [
    Language("English", "en"),
    Language("Hindi", "hi"),
    Language("Marathi", "mr"),
    Language("Gujarati", "gu"),
    Language("Tamil", "ta"),
    Language("Telugu", "te"),
    Language("Bengali", "bn"),
    Language("Punjabi", "pa")
  ]

  /** The code used when a name is not in the catalog, and the code for
      which no translation is requested. */
  const DEFAULT_CODE := "en"

  /** `langs.find(l => l.name === name)`, as the index of the first match. */
  function FindByName(langs: seq<Language>, name: string): (i: Option<nat>)
    ensures i.Some? ==> i.value < |langs| && langs[i.value].name == name
    ensures i.Some? ==> forall j :: 0 <= j < i.value ==> langs[j].name != name
    ensures i.None? <==> forall j :: 0 <= j < |langs| ==> langs[j].name != name
  {
    if langs == [] then None
    else if langs[0].name == name then Some(0)
    else match FindByName(langs[1..], name)
      case None => None
      case Some(k) => Some(k + 1)
  }

  /** No two catalog entries share a name, so the first match is the only one. */
  lemma CatalogNamesDistinct()
    ensures forall i, j :: 0 <= i < j < |SUPPORTED_LANGUAGES| ==>
      SUPPORTED_LANGUAGES[i].name != SUPPORTED_LANGUAGES[j].name
  {
    forall i, j | 0 <= i < j < |SUPPORTED_LANGUAGES|
      ensures SUPPORTED_LANGUAGES[i].name != SUPPORTED_LANGUAGES[j].name
    {
      var a, b := SUPPORTED_LANGUAGES[i].name, SUPPORTED_LANGUAGES[j].name;
      assert |a| != |b| || a[0] != b[0];
    }
  }

  /** `getLanguageCode`: the code of the first catalog entry with that
      name, and `"en"` for any other name. */
  function LanguageCode(name: string): (code: string)
    ensures forall j :: 0 <= j < |SUPPORTED_LANGUAGES| && SUPPORTED_LANGUAGES[j].name == name ==>
      code == SUPPORTED_LANGUAGES[j].code
    ensures (forall l :: l in SUPPORTED_LANGUAGES ==> l.name != name) ==> code == DEFAULT_CODE
    ensures exists l :: l in SUPPORTED_LANGUAGES && l.code == code
  {
    match FindByName(SUPPORTED_LANGUAGES, name)
    case None => assert SUPPORTED_LANGUAGES[0] in SUPPORTED_LANGUAGES; DEFAULT_CODE
    case Some(i) => CatalogNamesDistinct(); assert SUPPORTED_LANGUAGES[i] in SUPPORTED_LANGUAGES; SUPPORTED_LANGUAGES[i].code
  }

  /** Looking up the name of a catalog entry gives back its code. */
  lemma LanguageCodeOfEntry(l: Language)
    requires l in SUPPORTED_LANGUAGES
    ensures LanguageCode(l.name) == l.code
  {
  }

  /** What the translation service answered: the request failed (a network
      error, an error status, or a reply without a translations list), or it
      succeeded with `data[0].translations[0].text`, which may be absent. */
  datatype Reply = Failed | Replied(translation: Option<string>)

  /** Whether `translateText` sends a request at all. */
  predicate CallsBackend(text: string, targetCode: string)
  {
    text != "" && targetCode != DEFAULT_CODE
  }

  /** `translateText`: empty text and the English target short-circuit; a
      failed request, or a reply with no or an empty translation, falls back
      to the original text. */
  function TranslateText(text: string, targetCode: string, reply: Reply): (r: string)
    ensures !CallsBackend(text, targetCode) ==> r == text
    ensures reply.Failed? ==> r == text
    ensures r == text || (reply.Replied? && reply.translation == Some(r) && r != "")
    ensures (CallsBackend(text, targetCode) && reply.Replied? && reply.translation.Some?
             && reply.translation.value != "") ==> r == reply.translation.value
  {
    if !CallsBackend(text, targetCode) then text
    else match reply
      case Failed => text
      case Replied(t) => if t.Some? && t.value != "" then t.value else text
  }

  /** With the initial language selection no utterance is ever translated,
      whatever the service would answer. */
  lemma DefaultSelectionTranslatesNothing(text: string, reply: Reply)
    ensures TranslateText(text, LanguageCode("English"), reply) == text
  {
    assert SUPPORTED_LANGUAGES[0].name == "English";
  }
}
