/**
  The few Python `str` operations the pipeline relies on, written out:
  `lower`, `upper`, `strip`, `split('\n')`, the substring test `p in s`
  and `str` of an integer. Case mapping covers the ASCII letters only.
 */
module Text {

  predicate IsAsciiUpper(c: char) { 'A' <= c <= 'Z' }

  predicate IsAsciiLower(c: char) { 'a' <= c <= 'z' }

  function LowerChar(c: char): (d: char)
    ensures !IsAsciiUpper(d)
    ensures IsAsciiUpper(c) ==> d as int == c as int + 32
    ensures !IsAsciiUpper(c) ==> d == c
  {
    if IsAsciiUpper(c) then (c as int + 32) as char else c
  }

  function UpperChar(c: char): (d: char)
    ensures !IsAsciiLower(d)
    ensures IsAsciiLower(c) ==> d as int == c as int - 32
    ensures !IsAsciiLower(c) ==> d == c
  {
    if IsAsciiLower(c) then (c as int - 32) as char else c
  }

  /** `s.lower()` */
  function Lower(s: string): (r: string)
    ensures |r| == |s|
    ensures forall i :: 0 <= i < |r| ==> !IsAsciiUpper(r[i])
    ensures forall i :: 0 <= i < |r| ==> r[i] == LowerChar(s[i])
  {
    seq(|s|, i requires 0 <= i < |s| => LowerChar(s[i]))
  }

  /** `s.upper()` */
  function Upper(s: string): (r: string)
    ensures |r| == |s|
    ensures forall i :: 0 <= i < |r| ==> !IsAsciiLower(r[i])
    ensures forall i :: 0 <= i < |r| ==> r[i] == UpperChar(s[i])
  {
    seq(|s|, i requires 0 <= i < |s| => UpperChar(s[i]))
  }

  /** The characters for which Python's `str.isspace` holds, by code point. */
  predicate IsSpace(c: char)
  {
    var n := c as int;
    (9 <= n <= 13) || (28 <= n <= 32) || n == 0x85 || n == 0xA0 || n == 0x1680
    || (0x2000 <= n <= 0x200A) || n == 0x2028 || n == 0x2029 || n == 0x202F
    || n == 0x205F || n == 0x3000
  }

  /** `s.lstrip()`: the suffix left after dropping leading whitespace. */
  function TrimStart(s: string): (r: string)
    ensures |r| <= |s| && r == s[|s| - |r|..]
    ensures |r| > 0 ==> !IsSpace(r[0])
    ensures forall k :: 0 <= k < |s| - |r| ==> IsSpace(s[k])
  {
    if |s| > 0 && IsSpace(s[0]) then TrimStart(s[1..]) else s
  }

  /** `s.rstrip()`: the prefix left after dropping trailing whitespace. */
  function TrimEnd(s: string): (r: string)
    ensures |r| <= |s| && r == s[..|r|]
    ensures |r| > 0 ==> !IsSpace(r[|r| - 1])
    ensures forall k :: |r| <= k < |s| ==> IsSpace(s[k])
  {
    if |s| > 0 && IsSpace(s[|s| - 1]) then TrimEnd(s[..|s| - 1]) else s
  }

  /** How many leading characters `s.strip()` drops. */
  function StripOffset(s: string): (n: nat)
    ensures n <= |s|
    ensures forall k :: 0 <= k < n ==> IsSpace(s[k])
  {
    |s| - |TrimStart(s)|
  }

  /**
    `s.strip()`: the slice of `s` left after dropping whitespace at both
    ends; what was dropped is all whitespace and the ends kept are not.
   */
  function Strip(s: string): (r: string)
    ensures StripOffset(s) + |r| <= |s|
    ensures r == s[StripOffset(s)..StripOffset(s) + |r|]
    ensures forall k :: StripOffset(s) + |r| <= k < |s| ==> IsSpace(s[k])
    ensures |r| > 0 ==> !IsSpace(r[0]) && !IsSpace(r[|r| - 1])
  {
    var t := TrimStart(s);
    var r := TrimEnd(t);
    StripFacts(s, t, r);
    r
  }

  /**
    Composing the two trims gives the slice `Strip` promises; stated over
    what `TrimStart` and `TrimEnd` ensure rather than their definitions.
   */
  lemma StripFacts(s: string, t: string, r: string)
    requires |t| <= |s| && t == s[|s| - |t|..]
    requires |r| <= |t| && r == t[..|r|]
    requires |t| > 0 ==> !IsSpace(t[0])
    requires |r| > 0 ==> !IsSpace(r[|r| - 1])
    requires forall k :: |r| <= k < |t| ==> IsSpace(t[k])
    ensures |s| - |t| + |r| <= |s|
    ensures r == s[|s| - |t|..|s| - |t| + |r|]
    ensures forall k :: |s| - |t| + |r| <= k < |s| ==> IsSpace(s[k])
    ensures |r| > 0 ==> !IsSpace(r[0]) && !IsSpace(r[|r| - 1])
  {
    var i := |s| - |t|;
    forall k | i + |r| <= k < |s|
      ensures IsSpace(s[k])
    {
      assert s[k] == t[k - i];
    }
    if |r| > 0 {
      assert r[0] == t[0];
    }
  }

  /** `s.split(sep)` with an explicit one-character separator. */
  function Split(s: string, sep: char): (r: seq<string>)
    ensures |r| >= 1
    ensures forall i :: 0 <= i < |r| ==> sep !in r[i]
    ensures forall i, j :: 0 <= i < |r| && 0 <= j < |r[i]| ==> r[i][j] in s
  {
    if |s| == 0 then [""]
    else if s[0] == sep then [""] + Split(s[1..], sep)
    else
      var t := Split(s[1..], sep);
      [[s[0]] + t[0]] + t[1..]
  }

  /** `sep.join(parts)` */
  function Join(parts: seq<string>, sep: char): string
    requires |parts| >= 1
  {
    if |parts| == 1 then parts[0] else parts[0] + [sep] + Join(parts[1..], sep)
  }

  /** Splitting and joining again on the same separator gives back the text. */
  lemma {:induction false} JoinSplit(s: string, sep: char)
    ensures Join(Split(s, sep), sep) == s
  {
    if |s| > 0 {
      JoinSplit(s[1..], sep);
      var t := Split(s[1..], sep);
      if s[0] == sep {
        assert Split(s, sep) == [""] + t;
        assert ([""] + t)[1..] == t;
      } else {
        var r := [[s[0]] + t[0]] + t[1..];
        assert Split(s, sep) == r;
        if |t| > 1 {
          assert r[1..] == t[1..];
        }
      }
    }
  }

  /** Python's `p in s` on strings: `p` occurs in `s` at some offset. */
  function Contains(s: string, p: string): (b: bool)
    ensures b <==> exists i :: 0 <= i <= |s| - |p| && p <= s[i..]
  {
    if p <= s then assert s[0..] == s; true
    else if |s| == 0 then false
    else
      var b := Contains(s[1..], p);
      assert b ==> exists i :: 0 <= i <= |s| - |p| && p <= s[i..] by {
        if b {
          var i :| 0 <= i <= |s| - 1 - |p| && p <= s[1..][i..];
          assert s[1..][i..] == s[i + 1..];
        }
      }
      assert (exists i :: 0 <= i <= |s| - |p| && p <= s[i..]) ==> b by {
        if exists i :: 0 <= i <= |s| - |p| && p <= s[i..] {
          var i :| 0 <= i <= |s| - |p| && p <= s[i..];
          assert i != 0;
          assert s[1..][i - 1..] == s[i..];
        }
      }
      b
  }

  /** The empty string occurs in every string. */
  lemma EmptyOccursEverywhere(s: string)
    ensures Contains(s, "")
  {
    assert "" <= s[0..];
  }

  function DigitChar(d: int): (c: char)
    requires 0 <= d < 10
    ensures '0' <= c <= '9'
  {
    ('0' as int + d) as char
  }

  /** `str(n)` for a natural number: its decimal digits, most significant first. */
  function ShowNat(n: nat): (s: string)
    ensures |s| >= 1
    ensures n >= 10 ==> |s| >= 2
    ensures forall i :: 0 <= i < |s| ==> '0' <= s[i] <= '9'
  {
    if n < 10 then [DigitChar(n)] else ShowNat(n / 10) + [DigitChar(n % 10)]
  }

  /** `str(n)` for an integer. */
  function ShowInt(n: int): string
  {
    if n < 0 then "-" + ShowNat(-n) else ShowNat(n)
  }

  predicate IsDigits(s: string)
  {
    forall i :: 0 <= i < |s| ==> '0' <= s[i] <= '9'
  }

  /** `int(s)` for a string of decimal digits, most significant first. */
  function ReadNat(s: string): nat
    requires IsDigits(s)
  {
    if |s| == 0 then 0
    else ReadNat(s[..|s| - 1]) * 10 + (s[|s| - 1] as int - '0' as int)
  }

  /** `int(s)` for digits with an optional leading minus sign. */
  function ReadInt(s: string): int
    requires if |s| > 0 && s[0] == '-' then IsDigits(s[1..]) else IsDigits(s)
  {
    if |s| > 0 && s[0] == '-' then -(ReadNat(s[1..]) as int) else ReadNat(s)
  }

  /** Reading back the digits `ShowNat` writes gives the number. */
  lemma {:induction false} ReadShowNat(n: nat)
    ensures ReadNat(ShowNat(n)) == n
  {
    var s := ShowNat(n);
    if n >= 10 {
      ReadShowNat(n / 10);
      assert s[..|s| - 1] == ShowNat(n / 10);
      assert s[|s| - 1] == DigitChar(n % 10);
    } else {
      assert s[..0] == [];
    }
  }

  /** `int(str(n)) == n`: the decimal rendering of an integer loses nothing. */
  lemma ReadShowInt(n: int)
    ensures var s := ShowInt(n);
      (if |s| > 0 && s[0] == '-' then IsDigits(s[1..]) else IsDigits(s)) && ReadInt(s) == n
  {
    var s := ShowInt(n);
    if n < 0 {
      var d := ShowNat(-n);
      assert s == "-" + d && s[0] == '-' && s[1..] == d;
      ReadShowNat(-n);
      assert ReadInt(s) == -(ReadNat(d) as int);
    } else {
      var d := ShowNat(n);
      assert s == d && '0' <= d[0] <= '9';
      ReadShowNat(n);
      assert ReadInt(s) == ReadNat(d);
    }
  }

  lemma {:induction false} ShowNatInjective(a: nat, b: nat)
    ensures ShowNat(a) == ShowNat(b) ==> a == b
  {
    if ShowNat(a) == ShowNat(b) {
      var s := ShowNat(a);
      if a >= 10 && b >= 10 {
        assert s[|s| - 1] == DigitChar(a % 10) == DigitChar(b % 10);
        assert s[..|s| - 1] == ShowNat(a / 10) == ShowNat(b / 10);
        ShowNatInjective(a / 10, b / 10);
      } else if a < 10 && b < 10 {
        assert s[0] == DigitChar(a) == DigitChar(b);
      }
    }
  }

  /** The rendering starts with a minus sign exactly for negative numbers. */
  lemma ShowIntSign(n: int)
    ensures |ShowInt(n)| >= 1
    ensures ShowInt(n)[0] == '-' <==> n < 0
  {
    if n >= 0 {
      assert '0' <= ShowNat(n)[0] <= '9';
    }
  }

  /** Two integers have the same decimal rendering exactly when they are equal. */
  lemma ShowIntInjective(a: int, b: int)
    ensures ShowInt(a) == ShowInt(b) <==> a == b
  {
    ShowIntSign(a);
    ShowIntSign(b);
    if ShowInt(a) == ShowInt(b) {
      if a < 0 && b < 0 {
        assert ShowNat(-a) == ShowInt(a)[1..] == ShowInt(b)[1..] == ShowNat(-b);
        ShowNatInjective(-a, -b);
      } else if a >= 0 && b >= 0 {
        ShowNatInjective(a, b);
      }
    }
  }
}
