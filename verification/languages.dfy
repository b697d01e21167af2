/** The allow-list of translation target languages (backend/src/services/aiService.ts). */
module Languages {
  import opened Strings

  /** The thirty supported languages, in definition order. */
  const SupportedLanguages: seq<string> := [
    "English", "Spanish", "French", "German", "Italian",
    "Portuguese", "Chinese", "Japanese", "Korean", "Russian",
    "Arabic", "Hindi", "Dutch", "Swedish", "Norwegian",
    "Danish", "Finnish", "Polish", "Czech", "Hungarian",
    "Romanian", "Bulgarian", "Greek", "Turkish", "Hebrew",
    "Thai", "Vietnamese", "Indonesian", "Malay", "Filipino"
  ]

  /**
   * `validateLanguage`: `Array.prototype.includes` on the allow-list, that is,
   * exact, case-sensitive membership.
   */
  predicate ValidateLanguage(language: string) {
    language in SupportedLanguages
  }

  /** `getSupportedLanguages`: a fresh array holding the allow-list in definition order. */
  method GetSupportedLanguages() returns (languages: array<string>)
    ensures fresh(languages)
    ensures languages[..] == SupportedLanguages
  {
    languages := new string[|SupportedLanguages|](i requires 0 <= i < |SupportedLanguages| => SupportedLanguages[i]);
  }

  /** The error thrown when a translation names a language outside the allow-list. */
  function RestrictedMessage(language: string): (m: string)
    ensures Contains(m, "restricted") && Contains(m, language)
  {
    var m := "The suggested language \"" + language + "\" is " + "restricted"
             + ". Please choose from the supported languages.";
    assert MatchesAt(m, language, 24);
    assert MatchesAt(m, "restricted", 24 + |language| + 5);
    m
  }

  /** The list has thirty entries and no name twice. */
  lemma SupportedLanguagesAreThirtyDistinct()
    ensures |SupportedLanguages| == 30
    ensures forall i, j :: 0 <= i < j < |SupportedLanguages| ==> SupportedLanguages[i] != SupportedLanguages[j]
  {
  }

  /** Membership is exact and case-sensitive. */
  lemma ValidationIsCaseSensitive()
    ensures ValidateLanguage("English")
    ensures !ValidateLanguage("english")
  {
    assert forall name | name in SupportedLanguages :: |name| > 0 && name[0] != 'e';
  }

  /** Names are not trimmed: a padded or empty name is refused. */
  lemma PaddedOrEmptyNameRefused()
    ensures !ValidateLanguage(" English")
    ensures !ValidateLanguage("")
  {
    assert forall name | name in SupportedLanguages :: |name| > 0 && name[0] != ' ';
  }

  /** A language outside the list, such as Klingon, is refused. */
  lemma UnlistedLanguageRefused()
    ensures !ValidateLanguage("Klingon")
  {
    assert forall name | name in SupportedLanguages :: name[0] == 'K' ==> name == "Korean";
  }
}
