/** The string operations the loader applies to cells: Python's `str.strip`,
    `str.lower`, substring search (`str.contains` with a pattern free of regex
    metacharacters) and `str.replace('%', '')`. */
module Text {
  import opened Seqs

  /** Python's `str.isspace` set, which is what `str.strip()` removes. */
  predicate IsSpace(c: char) {
    var n := c as int;
    (0x09 <= n <= 0x0D) || (0x1C <= n <= 0x20) || n == 0x85 || n == 0xA0 ||
    n == 0x1680 || (0x2000 <= n <= 0x200A) || n == 0x2028 || n == 0x2029 ||
    n == 0x202F || n == 0x205F || n == 0x3000
  }

  /** Number of whitespace characters at the start of `s`. */
  function LeadingSpaces(s: string): (n: nat)
    ensures n <= |s|
    ensures forall i :: 0 <= i < n ==> IsSpace(s[i])
    ensures n < |s| ==> !IsSpace(s[n])
  {
    if |s| == 0 || !IsSpace(s[0]) then 0 else 1 + LeadingSpaces(s[1..])
  }

  /** Number of whitespace characters at the end of `s`. */
  function TrailingSpaces(s: string): (n: nat)
    ensures n <= |s|
    ensures forall i :: |s| - n <= i < |s| ==> IsSpace(s[i])
    ensures n < |s| ==> !IsSpace(s[|s| - n - 1])
  {
    if |s| == 0 || !IsSpace(s[|s| - 1]) then 0 else 1 + TrailingSpaces(s[..|s| - 1])
  }

  /** `r` is `s[i..i + |r|]` and everything of `s` around it is whitespace. */
  predicate SliceBetweenSpaces(s: string, r: string, i: int) {
    0 <= i <= |s| - |r| && s[i..i + |r|] == r &&
    (forall k :: 0 <= k < i ==> IsSpace(s[k])) &&
    (forall k :: i + |r| <= k < |s| ==> IsSpace(s[k]))
  }

  /** `str.strip()`: the longest slice of `s` that neither starts nor ends with whitespace. */
  function Trim(s: string): (r: string)
    ensures |r| <= |s|
    ensures |r| > 0 ==> !IsSpace(r[0]) && !IsSpace(r[|r| - 1])
    ensures exists i :: SliceBetweenSpaces(s, r, i)
  {
    var a := LeadingSpaces(s);
    if a == |s| then
      assert SliceBetweenSpaces(s, "", 0);
      ""
    else
      var rest := s[a..];
      var b := TrailingSpaces(rest);
      assert !IsSpace(rest[0]);
      var r := rest[..|rest| - b];
      assert s[a..a + |r|] == r;
      assert SliceBetweenSpaces(s, r, a);
      r
  }

  /** Stripping keeps exactly the part between the leading and the trailing
      whitespace, whatever the whitespace is. */
  lemma TrimKeepsCore(s: string, i: int, j: int)
    requires 0 <= i < j <= |s|
    requires forall k :: 0 <= k < i ==> IsSpace(s[k])
    requires forall k :: j <= k < |s| ==> IsSpace(s[k])
    requires !IsSpace(s[i]) && !IsSpace(s[j - 1])
    ensures Trim(s) == s[i..j]
  {
    var a := LeadingSpaces(s);
    assert a == i;
    var rest := s[i..];
    var b := TrailingSpaces(rest);
    assert rest[|rest| - (|s| - j) - 1] == s[j - 1];
    assert b == |s| - j;
    assert rest[..|rest| - b] == s[i..j];
  }

  /** Text that neither starts nor ends with whitespace is its own strip. */
  lemma TrimUnpadded(s: string)
    requires |s| > 0 && !IsSpace(s[0]) && !IsSpace(s[|s| - 1])
    ensures Trim(s) == s
  {
    TrimKeepsCore(s, 0, |s|);
  }

  lemma TrimIdempotent(s: string)
    ensures Trim(Trim(s)) == Trim(s)
  {
    var t := Trim(s);
    if |t| > 0 {
      assert LeadingSpaces(t) == 0;
      assert TrailingSpaces(t) == 0;
      assert t[0..][..|t| - 0] == t;
    }
  }

  /** `str.lower()` on one character, for ASCII, Latin-1 and the Vietnamese
      letters outside Latin-1; every other character is left as it is. */
  function LowerChar(c: char): (r: char)
  {
    var n := c as int;
    if 'A' <= c <= 'Z' then (n + 0x20) as char
    else if 0xC0 <= n <= 0xDE && n != 0xD7 then (n + 0x20) as char
    else if n == 0x0102 || n == 0x0110 || n == 0x0128 || n == 0x0168 || n == 0x01A0 then (n + 1) as char
    else if n == 0x01AF then (n + 1) as char
    else if 0x1EA0 <= n <= 0x1EF8 && n % 2 == 0 then (n + 1) as char
    else c
  }

  /** `str.lower()`, character by character. */
  function Lower(s: string): (r: string)
    ensures |r| == |s|
    ensures forall i :: 0 <= i < |s| ==> r[i] == LowerChar(s[i])
  {
    Map(s, LowerChar)
  }

  lemma LowerCharIdempotent(c: char)
    ensures LowerChar(LowerChar(c)) == LowerChar(c)
  {
  }

  lemma LowerIdempotent(s: string)
    ensures Lower(Lower(s)) == Lower(s)
  {
    forall i | 0 <= i < |s|
      ensures Lower(Lower(s))[i] == Lower(s)[i]
    {
      LowerCharIdempotent(s[i]);
    }
  }

  /** `t` occurs in `s` starting at position `i`. */
  predicate OccursAt(s: string, t: string, i: int) {
    0 <= i && i + |t| <= |s| && s[i..i + |t|] == t
  }

  /** `s` starts with `t`. */
  predicate HasPrefix(s: string, t: string) {
    |t| <= |s| && s[..|t|] == t
  }

  /** Substring search, as `Series.str.contains` performs it for a literal pattern. */
  function Contains(s: string, t: string): (r: bool)
    ensures r <==> exists i :: OccursAt(s, t, i)
    decreases |s|
  {
    if HasPrefix(s, t) then
      assert OccursAt(s, t, 0);
      true
    else if |s| == 0 then
      assert forall i :: !OccursAt(s, t, i);
      false
    else
      var r := Contains(s[1..], t);
      assert forall i :: OccursAt(s[1..], t, i) <==> OccursAt(s, t, i + 1) by {
        forall i ensures OccursAt(s[1..], t, i) <==> OccursAt(s, t, i + 1) {
          if 0 <= i && i + |t| <= |s| - 1 {
            assert s[1..][i..i + |t|] == s[i + 1..i + 1 + |t|];
          }
        }
      }
      assert r ==> exists i :: OccursAt(s, t, i) by {
        if r {
          var i :| OccursAt(s[1..], t, i);
          assert OccursAt(s, t, i + 1);
        }
      }
      assert (exists i :: OccursAt(s, t, i)) ==> r by {
        if exists i :: OccursAt(s, t, i) {
          var i :| OccursAt(s, t, i);
          assert i != 0;
          assert OccursAt(s[1..], t, i - 1);
        }
      }
      r
  }

  /** `str.replace('%', '')`: deletes every percent sign, wherever it occurs. */
  function StripPercent(s: string): (r: string)
    ensures '%' !in r
    ensures |r| <= |s|
    ensures forall c :: c != '%' ==> multiset(r)[c] == multiset(s)[c]
  {
    if |s| == 0 then ""
    else
      assert s == [s[0]] + s[1..];
      if s[0] == '%' then StripPercent(s[1..])
      else [s[0]] + StripPercent(s[1..])
  }

  lemma {:induction false} StripPercentAppend(a: string, b: string)
    ensures StripPercent(a + b) == StripPercent(a) + StripPercent(b)
    decreases |a|
  {
    if |a| > 0 {
      assert (a + b)[1..] == a[1..] + b;
      StripPercentAppend(a[1..], b);
    } else {
      assert a + b == b;
    }
  }

  /** A string with no percent sign is left untouched. */
  lemma {:induction false} StripPercentKeepsPlain(s: string)
    requires '%' !in s
    ensures StripPercent(s) == s
    decreases |s|
  {
    if |s| > 0 {
      assert '%' !in s[1..];
      StripPercentKeepsPlain(s[1..]);
    }
  }

  lemma StripPercentIdempotent(s: string)
    ensures StripPercent(StripPercent(s)) == StripPercent(s)
  {
    StripPercentKeepsPlain(StripPercent(s));
  }

  /** A percent sign anywhere in the text, not only at the end, makes no difference. */
  lemma StripPercentIgnoresSign(a: string, b: string)
    ensures StripPercent(a + "%" + b) == StripPercent(a + b)
  {
    StripPercentAppend(a + "%", b);
    StripPercentAppend(a, "%");
    StripPercentAppend(a, b);
    assert StripPercent("%") == "";
    assert StripPercent(a + "%") == StripPercent(a);
  }

  lemma StripPercentSuffix(s: string)
    ensures StripPercent(s + "%") == StripPercent(s)
  {
    StripPercentAppend(s, "%");
    assert StripPercent("%") == "";
  }
}
