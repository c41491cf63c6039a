/** The TLS switch of the launcher (app.py:74): the configured string is
    lowercased and looked up among four accepted spellings. */
module TlsFlag {
  import opened AsciiText

  /** The accepted lowercase spellings, in the order the source lists them. */
  const Truthy: seq<string> := ["true", "1", "yes", "on"]

  /** `NEZHA_TLS.lower() in ["true", "1", "yes", "on"]`. */
  predicate TlsEnabled(setting: string) {
    Lower(setting) in Truthy
  }

  /** `s` spells the lowercase word `w` with each letter in either case. */
  predicate MatchesIgnoringCase(s: string, w: string) {
    |s| == |w| && forall i :: 0 <= i < |s| ==> s[i] == w[i] || s[i] == UpperChar(w[i])
  }

  /** Lowercasing yields the lowercase word `w` exactly when `s` spells `w`
      ignoring case. */
  lemma LowerEqualsIff(s: string, w: string)
    requires forall i :: 0 <= i < |w| ==> !IsUpper(w[i])
    ensures Lower(s) == w <==> MatchesIgnoringCase(s, w)
  {
  }

  /** TLS is on exactly when the setting is one of the four words with its
      letters in any mix of cases; every other string turns it off. */
  lemma TlsEnabledIff(setting: string)
    ensures TlsEnabled(setting) <==>
      MatchesIgnoringCase(setting, "true") || MatchesIgnoringCase(setting, "1") ||
      MatchesIgnoringCase(setting, "yes") || MatchesIgnoringCase(setting, "on")
  {
    LowerEqualsIff(setting, "true");
    LowerEqualsIff(setting, "1");
    LowerEqualsIff(setting, "yes");
    LowerEqualsIff(setting, "on");
  }

  /** Only the case of the setting matters, never how it was written. */
  lemma TlsIgnoresCase(setting: string)
    ensures TlsEnabled(Lower(setting)) == TlsEnabled(setting)
  {
    LowerIdempotent(setting);
  }

  /** The source's own cases: upper and mixed case enable TLS; "false", the
      empty string and padded spellings do not. */
  lemma TlsExamples()
    ensures TlsEnabled("TRUE") && TlsEnabled("On") && TlsEnabled("1") && TlsEnabled("Yes")
    ensures !TlsEnabled("false") && !TlsEnabled("") && !TlsEnabled("0") && !TlsEnabled(" true")
  {
    assert Lower("TRUE") == "true";
    assert Lower("On") == "on";
    assert Lower("1") == "1";
    assert Lower("Yes") == "yes";
    LowerFixesLowercase("false");
    LowerFixesLowercase("0");
    LowerFixesLowercase(" true");
  }
}
