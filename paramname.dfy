/**
 * The tweak panel's label for a member without a display name (`MemberInfoNameToParamName`):
 * a space goes in front of every word-starting capital, surrounding white space is trimmed,
 * every underscore is removed and the first character is upper-cased. A name with nothing
 * left after that makes `Substring(0, 1)` throw.
 */
module ParamNames {
  import opened Common

  predicate IsUpper(c: char) { 'A' <= c <= 'Z' }

  predicate IsLower(c: char) { 'a' <= c <= 'z' }

  predicate IsLetter(c: char) { IsUpper(c) || IsLower(c) }

  /** `Char.IsWhiteSpace`: the Unicode space separators plus the listed control characters. */
  predicate IsWhiteSpace(c: char) {
    var n := c as int;
    || n == 0x20 || 0x09 <= n <= 0x0D || n == 0x85 || n == 0xA0 || n == 0x1680
    || 0x2000 <= n <= 0x200A || n == 0x2028 || n == 0x2029 || n == 0x202F || n == 0x205F
    || n == 0x3000
  }

  /**
   * Where the pattern `((?<=[A-Z])([A-Z])(?=[a-z]))|((?<=[a-z]+)([A-Z]))` matches: a capital
   * that follows a small letter, or that follows a capital and precedes a small letter.
   * Both look-arounds read the original name, never an inserted space.
   */
  predicate WordStart(s: string, i: int)
    requires 0 <= i < |s|
  {
    && IsUpper(s[i]) && i > 0
    && (IsLower(s[i - 1]) || (IsUpper(s[i - 1]) && i + 1 < |s| && IsLower(s[i + 1])))
  }

  /** The replacement `" $0"` applied to every match at or after index `i`. */
  function SpacedFrom(s: string, i: nat): string
    requires i <= |s|
    decreases |s| - i
  {
    if i == |s| then [] else (if WordStart(s, i) then [' ', s[i]] else [s[i]]) + SpacedFrom(s, i + 1)
  }

  /** `Regex.Replace(name, pattern, " $0")`. */
  function Spaced(s: string): string {
    SpacedFrom(s, 0)
  }

  /** `String.Replace(c, "")`: `s` with every `c` removed, order kept. */
  function Without(s: string, c: char): (r: string)
    ensures |r| <= |s|
    ensures c !in r
  {
    if s == [] then []
    else (if s[0] == c then [] else [s[0]]) + Without(s[1..], c)
  }

  /** `String.TrimStart()`: drop the leading white space. */
  function TrimStart(s: string): string {
    if s != [] && IsWhiteSpace(s[0]) then TrimStart(s[1..]) else s
  }

  /** `String.TrimEnd()`: drop the trailing white space. */
  function TrimEnd(s: string): string {
    if s != [] && IsWhiteSpace(s[|s| - 1]) then TrimEnd(s[..|s| - 1]) else s
  }

  /** What `TrimStart` removes is a run of white space, and what it keeps starts with none. */
  lemma {:induction false} TrimStartRemovesLeadingSpace(s: string)
    ensures var r := TrimStart(s);
            && |r| <= |s| && r == s[|s| - |r|..]
            && (forall k :: 0 <= k < |s| - |r| ==> IsWhiteSpace(s[k]))
            && (r != [] ==> !IsWhiteSpace(r[0]))
  {
    if s != [] && IsWhiteSpace(s[0]) {
      var t := s[1..];
      TrimStartRemovesLeadingSpace(t);
      var r := TrimStart(t);
      assert TrimStart(s) == r;
      assert s[|s| - |r|..] == t[|t| - |r|..];
      forall k | 0 <= k < |s| - |r| ensures IsWhiteSpace(s[k]) {
        if k > 0 {
          assert s[k] == t[k - 1];
        }
      }
    }
  }

  /** What `TrimEnd` removes is a run of white space, and what it keeps ends with none. */
  lemma {:induction false} TrimEndRemovesTrailingSpace(s: string)
    ensures var r := TrimEnd(s);
            && |r| <= |s| && r == s[..|r|]
            && (forall k :: |r| <= k < |s| ==> IsWhiteSpace(s[k]))
            && (r != [] ==> !IsWhiteSpace(r[|r| - 1]))
  {
    if s != [] && IsWhiteSpace(s[|s| - 1]) {
      var t := s[..|s| - 1];
      TrimEndRemovesTrailingSpace(t);
      var r := TrimEnd(t);
      assert TrimEnd(s) == r;
      assert s[..|r|] == t[..|r|];
      forall k | |r| <= k < |s| ensures IsWhiteSpace(s[k]) {
        if k < |s| - 1 {
          assert s[k] == t[k];
        }
      }
    }
  }

  /** `String.Trim()`. */
  function Trim(s: string): string {
    TrimEnd(TrimStart(s))
  }

  /** Upper-case mapping of one character; only the ASCII letters are mapped. */
  function Upper(c: char): (u: char)
    ensures !IsLower(u)
    ensures IsLetter(c) <==> IsLetter(u)
    ensures !IsLower(c) ==> u == c
  {
    if IsLower(c) then (c as int - 32) as char else c
  }

  /** `s.Substring(0, 1).ToUpper() + s.Substring(1)` for a non-empty `s`. */
  function UpperFirst(s: string): string {
    if s == [] then [] else [Upper(s[0])] + s[1..]
  }

  /** `MemberInfoNameToParamName`; the error is the exception `Substring(0, 1)` throws. */
  function ParamName(name: string): (r: Result<string>)
    ensures r.Ok? ==> |r.value| > 0 && '_' !in r.value && !IsLower(r.value[0])
  {
    var cleaned := Without(Trim(Spaced(name)), '_');
    if |cleaned| == 0 then Err("Substring(0, 1): the name is empty once trimmed and without '_'")
    else Ok(UpperFirst(cleaned))
  }

  // ----- What the insertion does and does not change -----

  /** Removing every space undoes the replacement: only spaces are inserted. */
  lemma {:induction false} SpacedFromOnlyAddsSpaces(s: string, i: nat)
    requires i <= |s|
    ensures Without(SpacedFrom(s, i), ' ') == Without(s[i..], ' ')
    decreases |s| - i
  {
    if i < |s| {
      SpacedFromOnlyAddsSpaces(s, i + 1);
      assert s[i..] == [s[i]] + s[i + 1..];
      WithoutAppend([s[i]], s[i + 1..], ' ');
      var head := if WordStart(s, i) then [' ', s[i]] else [s[i]];
      WithoutAppend(head, SpacedFrom(s, i + 1), ' ');
    }
  }

  lemma {:induction false} WithoutAppend(a: string, b: string, c: char)
    ensures Without(a + b, c) == Without(a, c) + Without(b, c)
  {
    if a != [] {
      assert (a + b)[1..] == a[1..] + b;
      WithoutAppend(a[1..], b, c);
    } else {
      assert a + b == b;
    }
  }

  /** The number of inserted spaces is the number of matches. */
  lemma {:induction false} SpacedFromLength(s: string, i: nat)
    requires i <= |s|
    ensures |SpacedFrom(s, i)| == |s| - i + |set k | i <= k < |s| && WordStart(s, k)|
    decreases |s| - i
  {
    if i < |s| {
      SpacedFromLength(s, i + 1);
      var later := set k | i + 1 <= k < |s| && WordStart(s, k);
      var here := set k | i <= k < |s| && WordStart(s, k);
      if WordStart(s, i) {
        assert here == later + {i};
      } else {
        assert here == later;
      }
    }
  }

  /** Nothing is inserted in front of the first character or after the last one. */
  lemma {:induction false} SpacedFromEnds(s: string, i: nat)
    requires i < |s|
    requires i == 0 || !IsLetter(s[i - 1])
    ensures SpacedFrom(s, i) != [] && SpacedFrom(s, i)[0] == s[i]
    ensures SpacedFrom(s, i)[|SpacedFrom(s, i)| - 1] == s[|s| - 1]
    decreases |s| - i
  {
    LastOfSpacedFrom(s, i);
  }

  lemma {:induction false} LastOfSpacedFrom(s: string, i: nat)
    requires i < |s|
    ensures SpacedFrom(s, i) != [] && SpacedFrom(s, i)[|SpacedFrom(s, i)| - 1] == s[|s| - 1]
    decreases |s| - i
  {
    if i + 1 < |s| {
      LastOfSpacedFrom(s, i + 1);
    }
  }

  /** Past leading underscores, the first remaining character is an original one, never a space. */
  lemma {:induction false} FirstKeptIsOriginal(s: string, i: nat)
    requires i <= |s| && ' ' !in s
    requires i == 0 || !IsLetter(s[i - 1])
    ensures Without(SpacedFrom(s, i), '_') == [] || Without(SpacedFrom(s, i), '_')[0] != ' '
    decreases |s| - i
  {
    if i < |s| {
      FirstKeptStep(s, i);
      if s[i] == '_' {
        FirstKeptIsOriginal(s, i + 1);
      }
    }
  }

  /** Where no match can start, an underscore vanishes and any other character is kept first. */
  lemma {:induction false} FirstKeptStep(s: string, i: nat)
    requires i < |s| && ' ' !in s
    requires i == 0 || !IsLetter(s[i - 1])
    ensures s[i] == '_' ==> Without(SpacedFrom(s, i), '_') == Without(SpacedFrom(s, i + 1), '_')
    ensures s[i] != '_' ==> Without(SpacedFrom(s, i), '_') != [] && Without(SpacedFrom(s, i), '_')[0] != ' '
  {
    assert !WordStart(s, i);
    assert s[i] in s;
    WithoutAppend([s[i]], SpacedFrom(s, i + 1), '_');
  }

  lemma {:induction false} WithoutCommutes(s: string, a: char, b: char)
    ensures Without(Without(s, a), b) == Without(Without(s, b), a)
  {
    if s != [] {
      WithoutCommutes(s[1..], a, b);
      WithoutAppend(if s[0] == a then [] else [s[0]], Without(s[1..], a), b);
      WithoutAppend(if s[0] == b then [] else [s[0]], Without(s[1..], b), a);
    }
  }

  /** Nothing is left exactly when every character was `c`. */
  lemma {:induction false} WithoutEmpty(s: string, c: char)
    ensures Without(s, c) == [] <==> forall k :: 0 <= k < |s| ==> s[k] == c
  {
    if s != [] {
      WithoutEmpty(s[1..], c);
      if s[0] == c {
        forall k | 0 <= k < |s| && (forall j :: 0 <= j < |s[1..]| ==> s[1..][j] == c) ensures s[k] == c {
          if k > 0 {
            assert s[k] == s[1..][k - 1];
          }
        }
      }
    }
  }

  lemma {:induction false} WithoutAbsent(s: string, c: char)
    requires c !in s
    ensures Without(s, c) == s
  {
    if s != [] {
      WithoutAbsent(s[1..], c);
    }
  }

  /** An identifier has white space at neither end of its spaced form, so `Trim` keeps it. */
  lemma {:induction false} SpacedIdentifierUntrimmed(name: string)
    requires forall k :: 0 <= k < |name| ==> !IsWhiteSpace(name[k])
    ensures Trim(Spaced(name)) == Spaced(name)
  {
    if name != [] {
      SpacedFromEnds(name, 0);
      TrimKeeps(Spaced(name));
    }
  }

  /** Dropping the spaces and the underscores of the spaced form leaves the name without underscores. */
  lemma {:induction false} CleanedIdentifier(name: string)
    requires ' ' !in name
    ensures Without(Without(Spaced(name), '_'), ' ') == Without(name, '_')
  {
    SpacedFromOnlyAddsSpaces(name, 0);
    assert name[0..] == name;
    WithoutAbsent(name, ' ');
    WithoutCommutes(Spaced(name), ' ', '_');
  }

  /** Upper-casing the first character commutes with dropping spaces when that character is no space. */
  lemma {:induction false} UpperFirstWithoutSpaces(c: string)
    requires c != [] && c[0] != ' '
    ensures Without(UpperFirst(c), ' ') == UpperFirst(Without(c, ' '))
  {
    assert c == [c[0]] + c[1..];
    WithoutAppend([c[0]], c[1..], ' ');
    WithoutAppend([Upper(c[0])], c[1..], ' ');
  }

  /**
   * For a member name with no white space (every C# identifier): the label fails exactly
   * when the name is all underscores, and otherwise dropping its spaces gives the name
   * without underscores, first character upper-cased.
   */
  lemma {:induction false} ParamNameOfIdentifier(name: string)
    requires forall k :: 0 <= k < |name| ==> !IsWhiteSpace(name[k])
    ensures ParamName(name).Err? <==> forall k :: 0 <= k < |name| ==> name[k] == '_'
    ensures ParamName(name).Ok? ==> Without(ParamName(name).value, ' ') == UpperFirst(Without(name, '_'))
  {
    SpacedIdentifierUntrimmed(name);
    assert ' ' !in name;
    CleanedIdentifier(name);
    FirstKeptIsOriginal(name, 0);
    var cleaned := Without(Spaced(name), '_');
    WithoutEmpty(name, '_');
    WithoutEmpty(cleaned, ' ');
    if cleaned != [] {
      UpperFirstWithoutSpaces(cleaned);
    }
  }

  /** A run with no capital in it is copied as it is: no match starts inside it. */
  lemma {:induction false} NoCapitalRunCopied(s: string, i: nat, j: nat)
    requires i <= j <= |s|
    requires forall k :: i <= k < j ==> !IsUpper(s[k])
    ensures SpacedFrom(s, i) == s[i..j] + SpacedFrom(s, j)
    decreases j - i
  {
    if i < j {
      assert !WordStart(s, i);
      assert SpacedFrom(s, i) == [s[i]] + SpacedFrom(s, i + 1);
      NoCapitalRunCopied(s, i + 1, j);
      assert s[i..j] == [s[i]] + s[i + 1..j];
    }
  }

  /** White space only at neither end: trimming changes nothing. */
  lemma {:induction false} TrimKeeps(s: string)
    requires s == [] || (!IsWhiteSpace(s[0]) && !IsWhiteSpace(s[|s| - 1]))
    ensures Trim(s) == s
  {
  }

  /** The label once the underscore-free, trimmed, spaced form is known and non-empty. */
  lemma {:induction false} ParamNameFromStages(name: string, cleaned: string)
    requires Without(Trim(Spaced(name)), '_') == cleaned && cleaned != []
    ensures ParamName(name) == Ok(UpperFirst(cleaned))
  {
  }
}
