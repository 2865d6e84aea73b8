/** The Python `str` operations the modelled code relies on, over `seq<char>`. */
module Strings {
  import opened Wrappers

  /** `s.startswith(p)` */
  predicate StartsWith(s: string, p: string) {
    |p| <= |s| && s[..|p|] == p
  }

  /** `s.endswith(p)` */
  predicate EndsWith(s: string, p: string) {
    |p| <= |s| && s[|s| - |p|..] == p
  }

  /** `p` occurs in `s` at position `i`. */
  predicate OccursAt(s: string, p: string, i: int) {
    0 <= i && i + |p| <= |s| && s[i..i + |p|] == p
  }

  /** `p in s` (substring test) */
  predicate Contains(s: string, p: string) {
    exists i | 0 <= i <= |s| :: OccursAt(s, p, i)
  }

  /** The characters `Strip` removes: space, tab, line feed, carriage return, vertical tab
      and form feed. */
  predicate IsSpace(c: char) {
    c == ' ' || c == '\t' || c == '\n' || c == '\r' || c as int == 11 || c as int == 12
  }

  /** `s.strip()`: no leading or trailing whitespace is left, and text without surrounding
      whitespace is unchanged; `StripInfix` shows that only surrounding whitespace goes. */
  function Strip(s: string): (r: string)
    ensures r == [] || (!IsSpace(r[0]) && !IsSpace(r[|r| - 1]))
    ensures |r| <= |s|
    ensures (s == [] || (!IsSpace(s[0]) && !IsSpace(s[|s| - 1]))) ==> r == s
  {
    if s != [] && IsSpace(s[0]) then Strip(s[1..])
    else if s != [] && IsSpace(s[|s| - 1]) then Strip(s[..|s| - 1])
    else s
  }

  /** Every character of `s` outside `s[i..j]` is whitespace. */
  predicate SpaceOutside(s: string, i: nat, j: nat)
    requires i <= j <= |s|
  {
    (forall k :: 0 <= k < i ==> IsSpace(s[k])) && (forall k :: j <= k < |s| ==> IsSpace(s[k]))
  }

  /** `s.strip()` removes only surrounding whitespace: the result is a slice of the input
      with nothing but whitespace before and after it. */
  lemma StripInfix(s: string)
    ensures exists i: nat, j: nat :: i <= j <= |s| && Strip(s) == s[i..j] && SpaceOutside(s, i, j)
  {
    var i, j := StripBounds(s);
  }

  lemma {:induction false} StripBounds(s: string) returns (i: nat, j: nat)
    ensures i <= j <= |s| && Strip(s) == s[i..j] && SpaceOutside(s, i, j)
    decreases |s|
  {
    if s != [] && IsSpace(s[0]) {
      var i', j' := StripBounds(s[1..]);
      i, j := i' + 1, j' + 1;
      SpaceOutsideCons(s, i', j');
    } else if s != [] && IsSpace(s[|s| - 1]) {
      i, j := StripBounds(s[..|s| - 1]);
      SpaceOutsideSnoc(s, i, j);
    } else {
      i, j := 0, |s|;
      assert s[i..j] == s;
    }
  }

  lemma SpaceOutsideCons(s: string, i: nat, j: nat)
    requires s != [] && IsSpace(s[0]) && i <= j <= |s| - 1
    requires SpaceOutside(s[1..], i, j)
    ensures s[1..][i..j] == s[i + 1..j + 1] && SpaceOutside(s, i + 1, j + 1)
  {
    forall k | 0 < k < i + 1 ensures IsSpace(s[k]) { assert s[k] == s[1..][k - 1]; }
    forall k | j + 1 <= k < |s| ensures IsSpace(s[k]) { assert s[k] == s[1..][k - 1]; }
  }

  lemma SpaceOutsideSnoc(s: string, i: nat, j: nat)
    requires s != [] && IsSpace(s[|s| - 1]) && i <= j <= |s| - 1
    requires SpaceOutside(s[..|s| - 1], i, j)
    ensures s[..|s| - 1][i..j] == s[i..j] && SpaceOutside(s, i, j)
  {
    forall k | 0 <= k < i ensures IsSpace(s[k]) { assert s[k] == s[..|s| - 1][k]; }
    forall k | j <= k < |s| - 1 ensures IsSpace(s[k]) { assert s[k] == s[..|s| - 1][k]; }
  }

  /** `s.split(c)` for a one-character separator: always at least one part,
      and an empty string splits into one empty part. */
  function Split(s: string, c: char): (parts: seq<string>)
    ensures |parts| >= 1
  {
    if s == [] then [""]
    else
      var rest := Split(s[1..], c);
      if s[0] == c then [""] + rest
      else [[s[0]] + rest[0]] + rest[1..]
  }

  /** `sep.join(parts)` */
  function Join(parts: seq<string>, sep: string): string
  {
    if parts == [] then ""
    else if |parts| == 1 then parts[0]
    else parts[0] + sep + Join(parts[1..], sep)
  }

  /** `''.join(parts)` */
  function Concat(parts: seq<string>): string
  {
    if parts == [] then "" else parts[0] + Concat(parts[1..])
  }

  /** `[p for p in parts if p]` */
  function NonEmpty(parts: seq<string>): (r: seq<string>)
    ensures forall i :: 0 <= i < |r| ==> r[i] != ""
  {
    if parts == [] then []
    else if parts[0] == "" then NonEmpty(parts[1..])
    else [parts[0]] + NonEmpty(parts[1..])
  }

  /** `s` without any occurrence of `c`. */
  function Remove(s: string, c: char): (r: string)
    ensures c !in r
  {
    if s == [] then ""
    else if s[0] == c then Remove(s[1..], c)
    else [s[0]] + Remove(s[1..], c)
  }

  /** `s.replace(pat, rep)`: every non-overlapping occurrence, from left to right. */
  function ReplaceAll(s: string, pat: string, rep: string): string
    requires pat != []
    decreases |s|
  {
    if |s| < |pat| then s
    else if s[..|pat|] == pat then rep + ReplaceAll(s[|pat|..], pat, rep)
    else [s[0]] + ReplaceAll(s[1..], pat, rep)
  }

  lemma {:induction false} SplitNoSeparator(s: string, c: char)
    ensures forall i :: 0 <= i < |Split(s, c)| ==> c !in Split(s, c)[i]
  {
    if s != [] {
      SplitNoSeparator(s[1..], c);
    }
  }

  /** Splitting and re-joining with the separator gives the string back. */
  lemma {:induction false} JoinSplit(s: string, c: char)
    ensures Join(Split(s, c), [c]) == s
  {
    if s != [] {
      var rest := Split(s[1..], c);
      JoinSplit(s[1..], c);
      if s[0] == c {
        assert Split(s, c) == [""] + rest;
        assert Split(s, c)[1..] == rest;
      } else {
        var parts := Split(s, c);
        assert parts == [[s[0]] + rest[0]] + rest[1..];
        if |rest| == 1 {
          assert Join(rest, [c]) == rest[0];
        } else {
          assert Join(rest, [c]) == rest[0] + [c] + Join(rest[1..], [c]);
          assert parts[1..] == rest[1..];
        }
      }
    }
  }

  lemma {:induction false} ConcatAppend(a: seq<string>, b: seq<string>)
    ensures Concat(a + b) == Concat(a) + Concat(b)
  {
    if a == [] {
      assert a + b == b;
    } else {
      assert (a + b)[1..] == a[1..] + b;
      ConcatAppend(a[1..], b);
      assert Concat(a + b) == a[0] + (Concat(a[1..]) + Concat(b));
    }
  }

  /** Dropping the empty parts does not change their concatenation. */
  lemma {:induction false} ConcatNonEmpty(parts: seq<string>)
    ensures Concat(NonEmpty(parts)) == Concat(parts)
  {
    if parts != [] {
      ConcatNonEmpty(parts[1..]);
    }
  }

  /** Concatenating the parts of a split removes exactly the separators. */
  lemma {:induction false} ConcatSplit(s: string, c: char)
    ensures Concat(Split(s, c)) == Remove(s, c)
  {
    if s != [] {
      var rest := Split(s[1..], c);
      ConcatSplit(s[1..], c);
      if s[0] == c {
        assert Split(s, c)[1..] == rest;
      } else {
        var parts := Split(s, c);
        assert parts[1..] == rest[1..];
        assert Concat(rest) == rest[0] + Concat(rest[1..]);
        assert Concat(parts) == [s[0]] + rest[0] + Concat(rest[1..]);
      }
    }
  }

  /** A first character that cannot start the pattern is kept. */
  lemma ReplaceAllSkip(s: string, pat: string, rep: string)
    requires pat != [] && |s| >= |pat| && s[0] != pat[0]
    ensures ReplaceAll(s, pat, rep) == [s[0]] + ReplaceAll(s[1..], pat, rep)
  {
    assert s[..|pat|][0] == s[0];
  }

  /** A leading occurrence of the pattern is replaced. */
  lemma ReplaceAllHit(s: string, pat: string, rep: string)
    requires pat != [] && |s| >= |pat| && s[..|pat|] == pat
    ensures ReplaceAll(s, pat, rep) == rep + ReplaceAll(s[|pat|..], pat, rep)
  {
  }

  /** `str.replace` applied to a string that does not contain `pat` changes nothing. */
  lemma {:induction false} ReplaceAbsent(s: string, pat: string, rep: string)
    requires pat != []
    requires !Contains(s, pat)
    ensures ReplaceAll(s, pat, rep) == s
    decreases |s|
  {
    if |s| >= |pat| {
      assert !OccursAt(s, pat, 0);
      assert s[0..0 + |pat|] == s[..|pat|];
      assert !Contains(s[1..], pat) by {
        forall i | OccursAt(s[1..], pat, i)
          ensures false
        {
          assert s[1..][i..i + |pat|] == s[i + 1..i + 1 + |pat|];
          assert OccursAt(s, pat, i + 1);
        }
      }
      ReplaceAbsent(s[1..], pat, rep);
    }
  }

  /** A string containing the separator splits into at least two parts, and one without
      it into exactly one. */
  lemma {:induction false} SplitParts(s: string, c: char)
    ensures c in s ==> |Split(s, c)| >= 2
    ensures c !in s ==> Split(s, c) == [s]
  {
    if s != [] {
      SplitParts(s[1..], c);
      if s[0] != c && c !in s[1..] {
        assert [s[0]] + s[1..] == s;
      }
    }
  }

  predicate IsDigit(c: char) {
    '0' <= c <= '9'
  }

  /** The value of a string of decimal digits, `None` if some character is not a digit. */
  function DigitsValue(ds: string): Option<nat> {
    if ds == [] then Some(0)
    else
      var init := DigitsValue(ds[..|ds| - 1]);
      var d := ds[|ds| - 1];
      if init.None? || !IsDigit(d) then None
      else Some(10 * init.value + (d as int - '0' as int))
  }

  /** `int(s)` on a string: surrounding whitespace is ignored, then an optional sign and at
      least one decimal digit; anything else raises `ValueError` (here `None`). */
  function ParseInt(s: string): (r: Option<int>)
  {
    ParseSigned(Strip(s))
  }

  /** An optional sign and at least one decimal digit. */
  function ParseSigned(t: string): (r: Option<int>)
  {
    if t != [] && t[0] == '-' then
      var v := ParseDigits(t[1..]);
      if v.None? then None else Some(0 - v.value)
    else if t != [] && t[0] == '+' then ParseDigits(t[1..])
    else ParseDigits(t)
  }

  /** At least one decimal digit and nothing else. */
  function ParseDigits(ds: string): (r: Option<nat>) {
    if ds == [] then None else DigitsValue(ds)
  }

  /** The decimal digits of a natural number. */
  function ShowNat(n: nat): (ds: string)
    ensures |ds| >= 1
  {
    if n < 10 then [('0' as int + n) as char]
    else ShowNat(n / 10) + [('0' as int + n % 10) as char]
  }

  /** `str(n)` for an integer. */
  function ShowInt(n: int): string {
    if n < 0 then "-" + ShowNat(-n) else ShowNat(n)
  }

  /** The digits of `n` read back give `n`. */
  lemma {:induction false} DigitsValueShow(n: nat)
    ensures DigitsValue(ShowNat(n)) == Some(n)
  {
    if n >= 10 {
      DigitsValueShow(n / 10);
      assert ShowNat(n)[..|ShowNat(n)| - 1] == ShowNat(n / 10);
    }
  }

  /** The text of a number starts and ends with a digit. */
  lemma {:induction false} ShowNatEnds(n: nat)
    ensures IsDigit(ShowNat(n)[0]) && IsDigit(ShowNat(n)[|ShowNat(n)| - 1])
  {
    if n >= 10 {
      ShowNatEnds(n / 10);
      assert ShowNat(n)[0] == ShowNat(n / 10)[0];
    }
  }

  /** A digit string parses to its value. */
  lemma ParseDigitString(ds: string, m: nat)
    requires ds != [] && IsDigit(ds[0]) && IsDigit(ds[|ds| - 1])
    requires DigitsValue(ds) == Some(m)
    ensures ParseInt(ds) == Some(m)
  {
    assert Strip(ds) == ds;
  }

  /** A digit string after a minus sign parses to the negated value. */
  lemma ParseNegatedDigitString(ds: string, m: nat)
    requires ds != [] && IsDigit(ds[|ds| - 1])
    requires DigitsValue(ds) == Some(m)
    ensures ParseInt("-" + ds) == Some(0 - m)
  {
    var s := "-" + ds;
    assert Strip(s) == s by {
      assert s[|s| - 1] == ds[|ds| - 1];
    }
    assert ParseSigned(s) == Some(0 - m) by {
      assert s[0] == '-' && s[1..] == ds;
    }
  }

  /** `int(str(n)) == n`. */
  lemma ParseShowInt(n: int)
    ensures ParseInt(ShowInt(n)) == Some(n)
  {
    var m: nat := if n < 0 then -n else n;
    DigitsValueShow(m);
    ShowNatEnds(m);
    if n < 0 {
      ParseNegatedDigitString(ShowNat(m), m);
    } else {
      ParseDigitString(ShowNat(m), m);
    }
  }
}
