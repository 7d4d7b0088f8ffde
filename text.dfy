/**
 * The few Swift `String` operations the core relies on, written out on
 * `seq<char>`: `lowercased()` (restricted to ASCII letters),
 * `replacingOccurrences(of:with: "")`, `Int(String)`, the decimal text of an
 * `Int` used by string interpolation, and `joined(separator:)`.  `Split` is not
 * used by the app; it is the inverse of `Join` used to state what a joined
 * text contains.
 */
module Text {
  import opened Optional

  predicate IsUpper(c: char) { 'A' <= c <= 'Z' }

  function LowerChar(c: char): char {
    if IsUpper(c) then (c as int + 32) as char else c
  }

  /**
   * `s.lowercased()` for ASCII letters: as long as `s`, no capital letter is
   * left, each capital becomes its small letter and every other character is
   * kept where it was.
   */
  function AsciiLower(s: string): (lowered: string)
    ensures |lowered| == |s|
    ensures forall i :: 0 <= i < |s| ==> !IsUpper(lowered[i])
    ensures forall i :: 0 <= i < |s| && !IsUpper(s[i]) ==> lowered[i] == s[i]
    ensures forall i :: 0 <= i < |s| && IsUpper(s[i]) ==> lowered[i] as int == s[i] as int + 32
  {
    seq(|s|, i requires 0 <= i < |s| => LowerChar(s[i]))
  }

  /** Lowercasing is idempotent, and it is the identity exactly on text without capitals. */
  lemma {:induction false} AsciiLowerIdentity(s: string)
    ensures AsciiLower(AsciiLower(s)) == AsciiLower(s)
    ensures AsciiLower(s) == s <==> forall i :: 0 <= i < |s| ==> !IsUpper(s[i])
  {
    if AsciiLower(s) == s {
      forall i | 0 <= i < |s| ensures !IsUpper(s[i]) {
        assert AsciiLower(s)[i] == LowerChar(s[i]);
      }
    }
  }

  lemma LowercaseUnchanged(s: string)
    requires forall i :: 0 <= i < |s| ==> !IsUpper(s[i])
    ensures AsciiLower(s) == s
  {
  }

  /** A character that is not a capital letter is in the lowercased text iff it is in the text. */
  lemma {:induction false} AsciiLowerKeeps(s: string, c: char)
    requires !IsUpper(c) && !('a' <= c <= 'z')
    ensures c in AsciiLower(s) <==> c in s
  {
    if c in s {
      var i :| 0 <= i < |s| && s[i] == c;
      assert AsciiLower(s)[i] == c;
    }
    if c in AsciiLower(s) {
      var i :| 0 <= i < |s| && AsciiLower(s)[i] == c;
      assert s[i] == c;
    }
  }

  /**
   * `s.replacingOccurrences(of: pat, with: "")`: scanning from the left, every
   * non-overlapping occurrence of `pat` is removed.  The result is never
   * longer, and every character in it comes from `s`.
   */
  function RemoveAll(s: string, pat: string): (rest: string)
    requires |pat| > 0
    ensures |rest| <= |s|
    ensures forall c :: c in rest ==> c in s
    decreases |s|
  {
    if |s| < |pat| then s
    else if s[..|pat|] == pat then
      var r := RemoveAll(s[|pat|..], pat);
      assert forall c :: c in s[|pat|..] ==> c in s;
      r
    else
      var r := RemoveAll(s[1..], pat);
      assert forall c :: c in s[1..] ==> c in s;
      [s[0]] + r
  }

  /** A prefix that never holds the first character of `pat` is left alone. */
  lemma {:induction false} RemoveAllSkipsPrefix(s: string, t: string, pat: string)
    requires |pat| > 0 && pat[0] !in s
    ensures RemoveAll(s + t, pat) == s + RemoveAll(t, pat)
    decreases |s|
  {
    if s != [] {
      assert (s + t)[0] == s[0];
      if |s + t| >= |pat| {
        assert (s + t)[..|pat|] != pat;
      }
      calc {
        RemoveAll(s + t, pat);
        { if |s + t| < |pat| { RemoveAllShort(t, pat); } }
        [s[0]] + RemoveAll((s + t)[1..], pat);
        { assert (s + t)[1..] == s[1..] + t; }
        [s[0]] + RemoveAll(s[1..] + t, pat);
        { RemoveAllSkipsPrefix(s[1..], t, pat); }
        [s[0]] + (s[1..] + RemoveAll(t, pat));
        s + RemoveAll(t, pat);
      }
    } else {
      assert s + t == t;
    }
  }

  /** Removing a one-character pattern keeps every other character. */
  lemma {:induction false} RemoveAllKeeps(s: string, pat: string, c: char)
    requires |pat| == 1 && c != pat[0] && c in s
    ensures c in RemoveAll(s, pat)
    decreases |s|
  {
    if s[..1] == pat {
      RemoveAllKeeps(s[1..], pat, c);
    } else if s[0] != c {
      RemoveAllKeeps(s[1..], pat, c);
    }
  }

  lemma RemoveAllShort(t: string, pat: string)
    requires 0 < |pat| && |t| < |pat|
    ensures RemoveAll(t, pat) == t
  {
  }

  /** Text that never holds the first character of `pat` is unchanged. */
  lemma RemoveAllAbsent(s: string, pat: string)
    requires |pat| > 0 && pat[0] !in s
    ensures RemoveAll(s, pat) == s
  {
    RemoveAllSkipsPrefix(s, [], pat);
    assert s + [] == s;
  }

  /** Removing `pat` from `s + pat`, where `s` never holds `pat`'s first character, gives `s`. */
  lemma RemoveAllSuffix(s: string, pat: string)
    requires |pat| > 0 && pat[0] !in s
    ensures RemoveAll(s + pat, pat) == s
  {
    RemoveAllSkipsPrefix(s, pat, pat);
    assert pat[..|pat|] == pat;
    assert pat[|pat|..] == [];
  }

  predicate IsDigit(c: char) { '0' <= c <= '9' }

  predicate AllDigits(s: string) { forall i :: 0 <= i < |s| ==> IsDigit(s[i]) }

  /** The value of a decimal numeral, most significant digit first. */
  function DigitsValue(s: string): nat
    requires AllDigits(s)
  {
    if s == [] then 0 else DigitsValue(s[..|s| - 1]) * 10 + (s[|s| - 1] as int - '0' as int)
  }

  /**
   * Swift's `Int(s)`: an optional `+` or `-` followed by one or more ASCII
   * digits; anything else (empty text, spaces, other characters) is `nil`.
   * A parsed value is negative only after a `-` sign.
   */
  function ParseInt(s: string): (n: Option<int>)
    ensures n.Some? ==> |s| > 0 && (IsDigit(s[0]) || s[0] == '+' || s[0] == '-')
    ensures n.Some? ==> forall i :: 1 <= i < |s| ==> IsDigit(s[i])
    ensures n.Some? && s[0] != '-' ==> n.value >= 0
    ensures n.Some? && s[0] == '-' ==> n.value <= 0
  {
    if |s| > 0 && (s[0] == '+' || s[0] == '-') then
      if |s| > 1 && AllDigits(s[1..]) then
        assert forall i :: 1 <= i < |s| ==> s[i] == s[1..][i - 1];
        var magnitude: int := DigitsValue(s[1..]);
        Some(if s[0] == '-' then -magnitude else magnitude)
      else None
    else if |s| > 0 && AllDigits(s) then Some(DigitsValue(s))
    else None
  }

  /** A digit string holds nothing but digits. */
  lemma DigitsExclude(d: string, c: char)
    requires AllDigits(d) && !IsDigit(c)
    ensures c !in d
  {
  }

  /** A non-empty digit string parses to its value. */
  lemma ParseDigits(d: string)
    requires |d| > 0 && AllDigits(d)
    ensures ParseInt(d) == Some(DigitsValue(d))
  {
    assert IsDigit(d[0]);
  }

  /** Text holding a character that is neither a digit nor a sign never parses. */
  lemma {:induction false} ParseRejects(s: string, c: char)
    requires c in s && !IsDigit(c) && c != '+' && c != '-'
    ensures ParseInt(s) == None
  {
    var i :| 0 <= i < |s| && s[i] == c;
    if |s| > 1 && (s[0] == '+' || s[0] == '-') {
      assert i > 0 && s[1..][i - 1] == c;
    }
  }

  function DigitChar(d: nat): char
    requires d < 10
  {
    ('0' as int + d) as char
  }

  /** The decimal text of a natural number, without leading zeros. */
  function NatToString(n: nat): string
    decreases n
  {
    if n < 10 then [DigitChar(n)] else NatToString(n / 10) + [DigitChar(n % 10)]
  }

  /**
   * `"\(n)"` for an `Int`: a `-` sign exactly for negative values, then one or
   * more digits.
   */
  function IntToString(n: int): (text: string)
    ensures |text| > 0 && (text[0] == '-' <==> n < 0)
    ensures forall i :: 0 < i < |text| ==> IsDigit(text[i])
    ensures n >= 0 ==> IsDigit(text[0])
  {
    NatToStringDigits(if n < 0 then -n else n);
    if n < 0 then
      var digits := NatToString(-n);
      assert forall i :: 0 < i < |digits| + 1 ==> ("-" + digits)[i] == digits[i - 1];
      "-" + digits
    else NatToString(n)
  }

  lemma {:induction false} NatToStringDigits(n: nat)
    ensures |NatToString(n)| > 0 && AllDigits(NatToString(n))
    ensures DigitsValue(NatToString(n)) == n
    decreases n
  {
    var s := NatToString(n);
    if n >= 10 {
      NatToStringDigits(n / 10);
      assert s[..|s| - 1] == NatToString(n / 10);
    }
  }

  /** Printing an integer and parsing the text back gives the integer again. */
  lemma IntToStringRoundTrip(n: int)
    ensures ParseInt(IntToString(n)) == Some(n)
  {
    if n < 0 {
      NatToStringDigits(-n);
      assert IntToString(n)[1..] == NatToString(-n);
    } else {
      NatToStringDigits(n);
      ParseDigits(NatToString(n));
    }
  }

  /**
   * `parts.joined(separator: sep)`: the text starts with the first part,
   * followed by the separator when more parts follow.
   */
  function Join(parts: seq<string>, sep: string): (joined: string)
    ensures |parts| > 0 ==> parts[0] <= joined
    ensures |parts| > 1 ==> parts[0] + sep <= joined
  {
    if |parts| == 0 then ""
    else if |parts| == 1 then parts[0]
    else
      parts[0] + sep + Join(parts[1..], sep)
  }

  lemma JoinUnfold(parts: seq<string>, sep: string)
    requires |parts| > 1
    ensures Join(parts, sep) == parts[0] + (sep + Join(parts[1..], sep))
  {
  }

  /** Cutting text at every `c`; there is always at least one piece. */
  function Split(s: string, c: char): (pieces: seq<string>)
    ensures |pieces| > 0
    decreases |s|
  {
    if |s| == 0 then [""]
    else
      var rest := Split(s[1..], c);
      if s[0] == c then [""] + rest else [[s[0]] + rest[0]] + rest[1..]
  }

  lemma {:induction false} SplitPrefix(a: string, b: string, c: char)
    requires c !in a
    ensures Split(a + b, c) == [a + Split(b, c)[0]] + Split(b, c)[1..]
    decreases |a|
  {
    if a == [] {
      assert a + b == b;
      assert a + Split(b, c)[0] == Split(b, c)[0];
      assert Split(b, c) == [Split(b, c)[0]] + Split(b, c)[1..];
    } else {
      assert (a + b)[0] == a[0];
      assert (a + b)[1..] == a[1..] + b;
      SplitPrefix(a[1..], b, c);
      assert [a[0]] + (a[1..] + Split(b, c)[0]) == a + Split(b, c)[0];
    }
  }

  /** Cutting `a + [c] + b` at `c`, where `a` holds no `c`, gives `a` and then the pieces of `b`. */
  lemma SplitSeparated(a: string, b: string, c: char)
    requires c !in a
    ensures Split(a + ([c] + b), c) == [a] + Split(b, c)
  {
    SplitPrefix(a, [c] + b, c);
    assert ([c] + b)[0] == c && ([c] + b)[1..] == b;
    assert Split([c] + b, c) == [""] + Split(b, c);
    assert a + "" == a;
  }

  /** Splitting a joined text at a separator character no part holds gives the parts back. */
  lemma {:induction false} SplitJoin(parts: seq<string>, c: char)
    requires |parts| > 0
    requires forall k :: 0 <= k < |parts| ==> c !in parts[k]
    ensures Split(Join(parts, [c]), c) == parts
  {
    if |parts| == 1 {
      SplitPrefix(parts[0], "", c);
      assert parts[0] + "" == parts[0];
    } else {
      SplitJoin(parts[1..], c);
      JoinUnfold(parts, [c]);
      SplitSeparated(parts[0], Join(parts[1..], [c]), c);
      assert [parts[0]] + parts[1..] == parts;
    }
  }
}
