/**
  ASIN extraction from a campaign name: the first match of the
  case-insensitive pattern `B0[A-Z0-9]{8}`, written as a scan for a fixed
  ten-character shape rather than as a general regular expression.
 */
module Asin {
  import opened Wrappers
  import opened Text

  const AsinLength: nat := 10

  /** `[A-Z0-9]` under IGNORECASE, for ASCII characters. */
  predicate IsAsinChar(c: char)
  {
    'A' <= c <= 'Z' || 'a' <= c <= 'z' || '0' <= c <= '9'
  }

  /** The pattern matches the ten characters of `s` starting at `i`. */
  predicate MatchesAt(s: string, i: nat)
  {
    i + AsinLength <= |s| && (s[i] == 'B' || s[i] == 'b') && s[i + 1] == '0'
    && forall k :: i + 2 <= k < i + AsinLength ==> IsAsinChar(s[k])
  }

  /** `pattern.search(s[from..])`: the leftmost match position at or after `from`. */
  function FirstMatchFrom(s: string, from: nat): (r: Option<nat>)
    requires from <= |s|
    ensures r.Some? ==>
      from <= r.value && MatchesAt(s, r.value) && forall j :: from <= j < r.value ==> !MatchesAt(s, j)
    ensures r.None? ==> forall j :: from <= j ==> !MatchesAt(s, j)
    decreases |s| - from
  {
    if from + AsinLength > |s| then None
    else if MatchesAt(s, from) then Some(from)
    else FirstMatchFrom(s, from + 1)
  }

  /**
    `pattern.search(name).group(0) if pattern.search(name) else None`:
    the leftmost matching ten-character substring, in the name's own case.
   */
  function ExtractAsin(name: string): (r: Option<string>)
    ensures r.None? <==> forall j: nat :: !MatchesAt(name, j)
    ensures r.Some? ==> exists i: nat ::
      (MatchesAt(name, i) && r.value == name[i..i + AsinLength] && forall j: nat :: j < i ==> !MatchesAt(name, j))
  {
    match FirstMatchFrom(name, 0)
    case None => None
    case Some(i) => Some(name[i..i + AsinLength])
  }

  /** An extracted ASIN has the pattern's shape: a 'B' or 'b', a '0', eight alphanumerics. */
  lemma ExtractedAsinShape(name: string)
    requires ExtractAsin(name).Some?
    ensures var a := ExtractAsin(name).value;
      |a| == AsinLength && UpperChar(a[0]) == 'B' && a[1] == '0'
      && forall k :: 2 <= k < AsinLength ==> IsAsinChar(a[k])
  {
    var i: nat :| MatchesAt(name, i) && ExtractAsin(name).value == name[i..i + AsinLength];
    var a := ExtractAsin(name).value;
    forall k | 2 <= k < AsinLength
      ensures IsAsinChar(a[k])
    {
      assert a[k] == name[i + k];
    }
  }
}
