/**
 * `StringExtensions.Redact`: keeps a few characters of a secret and hides the rest,
 * optionally behind a marker text, for use in log messages.
 */
module StringExtensions {
  import opened Wrappers

  /** The marker put in front of the kept characters unless the caller gives another. */
  const DefaultRedactedText: string := "***REDACTED***"

  /** `s.Substring(start)`, or `None` where it throws `ArgumentOutOfRangeException`. */
  function SubstringFrom(s: string, start: int): (r: Option<string>)
    ensures r.Some? <==> 0 <= start <= |s|
    ensures r.Some? ==> |r.value| == |s| - start && s == s[..start] + r.value
  {
    if 0 <= start <= |s| then Some(s[start..]) else None
  }

  /** `s.Substring(start, length)`, or `None` where it throws `ArgumentOutOfRangeException`. */
  function SubstringRange(s: string, start: int, length: int): (r: Option<string>)
    ensures r.Some? <==> 0 <= start && 0 <= length && start + length <= |s|
    ensures r.Some? ==> |r.value| == length && s == s[..start] + r.value + s[start + length..]
  {
    if 0 <= start && 0 <= length && start + length <= |s| then Some(s[start..start + length]) else None
  }

  /** Whether `Redact` actually hides something: at least two characters are left out of the kept part. */
  predicate Redacts(text: string, charsToKeep: int)
  {
    0 <= charsToKeep && charsToKeep + 1 < |text|
  }

  /** The text `Redact` puts before the kept characters. */
  function Marker(includeRedactText: bool, redactedText: string): string
  {
    if includeRedactText then redactedText + " " else ""
  }

  /**
   * `Redact(text, charsToKeep, includeRedactText, redactFromStart, redactedText)`.
   * `charsToKeep + 1` is computed in 32 bits; any `Substring` failure is swallowed and
   * the text comes back unchanged.
   */
  function Redact(text: string, charsToKeep: Int32, includeRedactText: bool, redactFromStart: bool,
                  redactedText: string): (r: string)
    requires |text| <= MaxStringLength
    ensures !Redacts(text, charsToKeep) ==> r == text
    ensures Redacts(text, charsToKeep) ==>
      var m := Marker(includeRedactText, redactedText);
      && |r| == |m| + charsToKeep
      && r[..|m|] == m
      && (redactFromStart ==> r[|m|..] == text[|text| - charsToKeep..])
      && (!redactFromStart ==> r[|m|..] == text[..charsToKeep])
  {
    if text != [] && |text| > Wrap32(charsToKeep + 1) then
      var kept := if redactFromStart then SubstringFrom(text, |text| - charsToKeep)
                  else SubstringRange(text, 0, charsToKeep);
      match kept
      case None => text
      case Some(k) => if includeRedactText then redactedText + " " + k else k
    else
      text
  }

  /** `Redact(text, charsToKeep, includeRedactText, redactFromStart)`: the default marker. */
  function RedactWithDefaultText(text: string, charsToKeep: Int32, includeRedactText: bool,
                                 redactFromStart: bool): (r: string)
    requires |text| <= MaxStringLength
    ensures r == Redact(text, charsToKeep, includeRedactText, redactFromStart, DefaultRedactedText)
    ensures Redacts(text, charsToKeep) && includeRedactText ==> r[..15] == "***REDACTED*** "
  {
    Redact(text, charsToKeep, includeRedactText, redactFromStart, DefaultRedactedText)
  }

  /** `Redact(text, charsToKeep, includeRedactText)`: the default marker, keeping the end of the text. */
  function RedactKeepingEnd(text: string, charsToKeep: Int32, includeRedactText: bool): (r: string)
    requires |text| <= MaxStringLength
    ensures r == Redact(text, charsToKeep, includeRedactText, true, DefaultRedactedText)
    ensures Redacts(text, charsToKeep) && !includeRedactText ==> r == text[|text| - charsToKeep..]
  {
    Redact(text, charsToKeep, includeRedactText, true, DefaultRedactedText)
  }

  /** `Redact(text, charsToKeep)`: the default marker, keeping the end of the text. */
  function RedactKeeping(text: string, charsToKeep: Int32): (r: string)
    requires |text| <= MaxStringLength
    ensures r == Redact(text, charsToKeep, true, true, DefaultRedactedText)
    ensures Redacts(text, charsToKeep) ==> r == DefaultRedactedText + " " + text[|text| - charsToKeep..]
  {
    Redact(text, charsToKeep, true, true, DefaultRedactedText)
  }

  /** `Redact(text)`: the marker followed by the last five characters, for texts longer than six. */
  function RedactDefault(text: string): (r: string)
    requires |text| <= MaxStringLength
    ensures |text| <= 6 ==> r == text
    ensures |text| > 6 ==> r == "***REDACTED*** " + text[|text| - 5..]
  {
    Redact(text, 5, true, true, DefaultRedactedText)
  }

  /** A negative count makes `Substring` throw, so the text is returned as it is. */
  lemma NegativeKeepReturnsText(text: string, charsToKeep: Int32, includeRedactText: bool,
                                redactFromStart: bool, redactedText: string)
    requires |text| <= MaxStringLength && charsToKeep < 0
    ensures Redact(text, charsToKeep, includeRedactText, redactFromStart, redactedText) == text
  {
  }

  /** Without the marker, exactly `charsToKeep` characters of the text survive, and at least two are hidden. */
  lemma RedactHidesAtLeastTwo(text: string, charsToKeep: Int32, redactFromStart: bool, redactedText: string)
    requires |text| <= MaxStringLength && Redacts(text, charsToKeep)
    ensures var r := Redact(text, charsToKeep, false, redactFromStart, redactedText);
      |r| == charsToKeep && |text| - |r| >= 2
  {
  }
}
