/** Labels the tweak panel derives for particular member names. */
module ParamNameExamples {
  import opened Common
  import opened ParamNames

  /** A name with exactly two capitals, each starting a word, gets exactly two spaces. */
  lemma {:induction false} TwoMatches(s: string, a: nat, b: nat)
    requires a < b < |s| && WordStart(s, a) && WordStart(s, b)
    requires forall k :: 0 <= k < a ==> !IsUpper(s[k])
    requires forall k :: a < k < b ==> !IsUpper(s[k])
    requires forall k :: b < k < |s| ==> !IsUpper(s[k])
    ensures Spaced(s) == s[..a] + [' ', s[a]] + s[a + 1..b] + [' ', s[b]] + s[b + 1..]
  {
    NoCapitalRunCopied(s, b + 1, |s|);
    var last := SpacedFrom(s, b + 1);
    assert last == s[b + 1..] by {
      assert SpacedFrom(s, |s|) == [];
      assert s[b + 1..|s|] == s[b + 1..];
    }
    var fromB := SpacedFrom(s, b);
    assert fromB == [' ', s[b]] + last;
    NoCapitalRunCopied(s, a + 1, b);
    var fromA := SpacedFrom(s, a);
    assert fromA == [' ', s[a]] + (s[a + 1..b] + fromB);
    NoCapitalRunCopied(s, 0, a);
    assert s[0..a] == s[..a];
  }

  /** The squid's `_thrustForceMagnitude`: two matches, at `F` and at `M`. */
  lemma {:induction false} ThrustForceMagnitudeMatches(s: string)
    requires s == "_thrustForceMagnitude"
    ensures Spaced(s) == s[..7] + [' ', s[7]] + s[8..12] + [' ', s[12]] + s[13..]
  {
    assert WordStart(s, 7) && WordStart(s, 12);
    TwoMatches(s, 7, 12);
  }

  lemma {:induction false} ThrustForceMagnitudeSpaced(s: string, spaced: string)
    requires s == "_thrustForceMagnitude" && spaced == "_thrust Force Magnitude"
    ensures Spaced(s) == spaced
  {
    ThrustForceMagnitudeMatches(s);
    assert s[..7] == "_thrust" && s[8..12] == "orce" && s[13..] == "agnitude";
  }

  lemma {:induction false} ThrustForceMagnitudeTrimmed(spaced: string)
    requires spaced == "_thrust Force Magnitude"
    ensures Trim(spaced) == spaced
  {
    TrimKeeps(spaced);
  }

  lemma {:induction false} ThrustForceMagnitudeCleaned(spaced: string, cleaned: string)
    requires spaced == "_thrust Force Magnitude" && cleaned == "thrust Force Magnitude"
    ensures Without(spaced, '_') == cleaned
  {
    assert spaced == "_" + cleaned;
    WithoutAppend("_", cleaned, '_');
    ThrustForceMagnitudeKept(cleaned);
  }

  lemma {:induction false} ThrustForceMagnitudeKept(cleaned: string)
    requires cleaned == "thrust Force Magnitude"
    ensures Without(cleaned, '_') == cleaned
  {
    assert '_' !in cleaned;
    WithoutAbsent(cleaned, '_');
  }

  lemma {:induction false} ThrustForceMagnitudeUpper(cleaned: string, text: string)
    requires cleaned == "thrust Force Magnitude" && text == "Thrust Force Magnitude"
    ensures UpperFirst(cleaned) == text
  {
    assert Upper('t') == 'T';
    assert cleaned[1..] == text[1..];
  }

  /** "_thrustForceMagnitude" is labelled "Thrust Force Magnitude". */
  lemma {:induction false} ThrustForceMagnitudeLabel(s: string)
    requires s == "_thrustForceMagnitude"
    ensures ParamName(s) == Ok("Thrust Force Magnitude")
  {
    var spaced, cleaned, text := "_thrust Force Magnitude", "thrust Force Magnitude", "Thrust Force Magnitude";
    ThrustForceMagnitudeSpaced(s, spaced);
    ThrustForceMagnitudeTrimmed(spaced);
    ThrustForceMagnitudeCleaned(spaced, cleaned);
    ThrustForceMagnitudeUpper(cleaned, text);
    ParamNameFromStages(s, cleaned);
  }

  /** "_" leaves nothing to upper-case: `Substring(0, 1)` throws. */
  lemma UnderscoreOnlyFails()
    ensures ParamName("_").Err?
  {
  }
}
