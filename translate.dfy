/**
 * The Cyrillic translation gate of src/gibr/translate.py. The external
 * translator is an oracle: it receives the source language and the text and
 * answers with the translation, or `None` when the call fails.
 */
module Translate {
  import opened Wrappers
  import opened Text

  /** (source_lang, text) to the translation, or `None` on any failure. */
  type Translator = (string, string) -> Option<string>

  /** `translate_to_english`'s default source language. */
  const DefaultSourceLang: string := "ru"

  /** The character class `[а-яА-ЯёЁ]`: U+0410 to U+044F, and U+0401, U+0451. */
  predicate IsCyrillic(c: char) {
    ('\U{410}' <= c <= '\U{44F}') || c == '\U{401}' || c == '\U{451}'
  }

  /** `detect_cyrillic`: the class occurs somewhere in `text`. */
  function DetectCyrillic(text: string): (r: bool)
    ensures r <==> exists i :: 0 <= i < |text| && IsCyrillic(text[i])
  {
    if text == [] then false
    else if IsCyrillic(text[0]) then true
    else
      var r := DetectCyrillic(text[1..]);
      assert forall i :: 1 <= i < |text| ==> text[i] == text[1..][i - 1];
      r
  }

  /** `translate_to_english`: blank text is returned as is; a failed translation gives the original back. */
  function TranslateToEnglish(text: string, sourceLang: string, translator: Translator): (r: string)
    ensures IsBlank(text) ==> r == text
    ensures !IsBlank(text) ==> r == translator(sourceLang, text).GetOr(text)
  {
    if text == [] || IsBlank(text) then text
    else
      match translator(sourceLang, text)
      case Some(translated) => translated
      case None => text
  }

  /** `auto_translate_if_needed`: only non-empty text with a Cyrillic letter goes to the translator. */
  function AutoTranslateIfNeeded(text: string, translator: Translator): (r: string)
    ensures !DetectCyrillic(text) ==> r == text
    ensures DetectCyrillic(text) ==> r == translator(DefaultSourceLang, text).GetOr(text)
  {
    if text == [] then text
    else if DetectCyrillic(text) then TranslateToEnglish(text, DefaultSourceLang, translator)
    else text
  }

  /** A Cyrillic letter is never whitespace, so Cyrillic text is never blank. */
  lemma CyrillicIsNotBlank(text: string)
    requires DetectCyrillic(text)
    ensures !IsBlank(text)
  {
    var i :| 0 <= i < |text| && IsCyrillic(text[i]);
    assert !IsSpace(text[i]);
  }

  /** ASCII text never contains the class. */
  lemma AsciiIsNotCyrillic(text: string)
    requires forall i :: 0 <= i < |text| ==> text[i] < '\U{80}'
    ensures !DetectCyrillic(text)
  {
  }

  /** Cyrillic letters outside `[а-яА-ЯёЁ]` (Ukrainian і, ї, є and their capitals) do not count. */
  lemma UkrainianLettersAreNotDetected()
    ensures !DetectCyrillic("\U{456}\U{457}\U{454}\U{406}\U{407}\U{404}")
  {
    var t := "\U{456}\U{457}\U{454}\U{406}\U{407}\U{404}";
    assert forall i :: 0 <= i < |t| ==> !IsCyrillic(t[i]);
  }

  /** Blank text is answered without consulting the translator: any two translators agree on it. */
  lemma BlankTextIgnoresTranslator(text: string, sourceLang: string, t1: Translator, t2: Translator)
    requires IsBlank(text)
    ensures TranslateToEnglish(text, sourceLang, t1) == text == TranslateToEnglish(text, sourceLang, t2)
  {
  }

  /** The translator's own failure never loses the text. */
  lemma FailedTranslationKeepsText(text: string, sourceLang: string, translator: Translator)
    requires translator(sourceLang, text).None?
    ensures TranslateToEnglish(text, sourceLang, translator) == text
  {
  }

  /** Text without the class is answered without consulting the translator. */
  lemma NonCyrillicIgnoresTranslator(text: string, t1: Translator, t2: Translator)
    requires !DetectCyrillic(text)
    ensures AutoTranslateIfNeeded(text, t1) == text == AutoTranslateIfNeeded(text, t2)
  {
  }

  /** The gate is idempotent whenever its first answer carries no Cyrillic letter. */
  lemma AutoTranslateIdempotent(text: string, translator: Translator)
    requires !DetectCyrillic(AutoTranslateIfNeeded(text, translator))
    ensures AutoTranslateIfNeeded(AutoTranslateIfNeeded(text, translator), translator)
         == AutoTranslateIfNeeded(text, translator)
  {
  }

  /** Cyrillic text reaches the translator exactly once, asked to translate from Russian. */
  lemma CyrillicTextIsTranslated(text: string, translator: Translator)
    requires DetectCyrillic(text)
    ensures AutoTranslateIfNeeded(text, translator) == TranslateToEnglish(text, DefaultSourceLang, translator)
    ensures translator(DefaultSourceLang, text).Some? ==>
              AutoTranslateIfNeeded(text, translator) == translator(DefaultSourceLang, text).value
    ensures translator(DefaultSourceLang, text).None? ==> AutoTranslateIfNeeded(text, translator) == text
  {
    CyrillicIsNotBlank(text);
  }
}
