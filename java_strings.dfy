/**
 * The few java.lang.String and java.lang.Long operations the identifier service relies on,
 * written out over `seq<char>` with the contracts the Java library documents.
 */
module JavaStrings {

  /** `t` occurs in `s` starting at index `i`. */
  predicate OccursAt(s: string, t: string, i: nat)
  {
    i + |t| <= |s| && s[i..i + |t|] == t
  }

  /**
   * String.indexOf(c, from): the first index at or after `from` holding `c`, or -1.
   */
  function IndexOf(s: string, c: char, from: nat): (r: int)
    ensures r == -1 || (from <= r < |s| && s[r] == c)
    ensures r == -1 <==> forall i :: from <= i < |s| ==> s[i] != c
    ensures r != -1 ==> forall i :: from <= i < r ==> s[i] != c
    decreases |s| - from
  {
    if from >= |s| then -1
    else if s[from] == c then from
    else IndexOf(s, c, from + 1)
  }

  /** String.contains(t): some occurrence of `t` in `s`. */
  predicate Contains(s: string, t: string)
    ensures Contains(s, t) <==> exists i: nat :: OccursAt(s, t, i)
    decreases |s|
  {
    if OccursAt(s, t, 0) then true
    else if s == [] then false
    else
      var r := Contains(s[1..], t);
      assert forall i: nat :: OccursAt(s[1..], t, i) <==> OccursAt(s, t, i + 1) by {
        forall i: nat ensures OccursAt(s[1..], t, i) <==> OccursAt(s, t, i + 1) {
          if i + |t| <= |s| - 1 {
            assert s[1..][i..i + |t|] == s[i + 1..i + 1 + |t|];
          }
        }
      }
      assert r ==> exists i: nat :: OccursAt(s, t, i) by {
        if r {
          var i: nat :| OccursAt(s[1..], t, i);
          assert OccursAt(s, t, i + 1);
        }
      }
      assert (exists i: nat :: OccursAt(s, t, i)) ==> r by {
        if exists i: nat :: OccursAt(s, t, i) {
          var i: nat :| OccursAt(s, t, i);
          assert i != 0;
          assert OccursAt(s[1..], t, i - 1);
        }
      }
      r
  }

  /**
   * String.replace(target, replacement): every non-overlapping occurrence of `target`,
   * scanning left to right, is replaced; an empty target inserts the replacement before
   * every character and at the end.
   */
  function Replace(s: string, target: string, replacement: string): string
    decreases |s|
  {
    if target == [] then
      if s == [] then replacement else replacement + [s[0]] + Replace(s[1..], target, replacement)
    else if OccursAt(s, target, 0) then
      replacement + Replace(s[|target|..], target, replacement)
    else if s == [] then
      []
    else
      [s[0]] + Replace(s[1..], target, replacement)
  }

  /** Text without any occurrence of a non-empty target comes back unchanged. */
  lemma {:induction false} ReplaceWithoutTarget(s: string, target: string, replacement: string)
    requires target != [] && !Contains(s, target)
    ensures Replace(s, target, replacement) == s
    decreases |s|
  {
    if s != [] {
      ReplaceWithoutTarget(s[1..], target, replacement);
    }
  }

  /**
   * A prefix in which no occurrence of the target starts is copied unchanged, and the scan
   * goes on after it.
   */
  lemma {:induction false} ReplaceSkipsPrefix(a: string, b: string, target: string, replacement: string)
    requires target != []
    requires forall i: nat :: i < |a| ==> !OccursAt(a + b, target, i)
    ensures Replace(a + b, target, replacement) == a + Replace(b, target, replacement)
    decreases |a|
  {
    if a == [] {
      assert a + b == b;
    } else {
      ReplaceCopiesFirst(a + b, target, replacement);
      ShiftedText(a, b, target);
      ReplaceSkipsPrefix(a[1..], b, target, replacement);
      ConsConcat(a, Replace(b, target, replacement));
    }
  }

  /** Splitting off the first character commutes with concatenation. */
  lemma ConsConcat(a: string, c: string)
    requires a != []
    ensures (a + c)[0] == a[0]
    ensures [a[0]] + (a[1..] + c) == a + c
  {
    assert a == [a[0]] + a[1..];
  }

  /** Text that does not start with the target: its first character is copied. */
  lemma ReplaceCopiesFirst(x: string, target: string, replacement: string)
    requires target != [] && x != [] && !OccursAt(x, target, 0)
    ensures Replace(x, target, replacement) == [x[0]] + Replace(x[1..], target, replacement)
  {
  }

  /** Dropping the first character of the prefix moves every occurrence one place down. */
  lemma ShiftedText(a: string, b: string, target: string)
    requires a != []
    requires forall i: nat :: i < |a| ==> !OccursAt(a + b, target, i)
    ensures (a + b)[1..] == a[1..] + b
    ensures forall i: nat :: i < |a[1..]| ==> !OccursAt(a[1..] + b, target, i)
  {
    assert (a + b)[1..] == a[1..] + b;
    forall i: nat | i < |a[1..]|
      ensures !OccursAt(a[1..] + b, target, i)
    {
      assert !OccursAt(a + b, target, i + 1);
      if i + |target| <= |a[1..] + b| {
        assert (a[1..] + b)[i..i + |target|] == (a + b)[i + 1..i + 1 + |target|];
      }
    }
  }

  /** Text that starts with the target: the replacement, then the scan goes on after it. */
  lemma ReplaceAtFront(b: string, target: string, replacement: string)
    requires target != []
    ensures Replace(target + b, target, replacement) == replacement + Replace(b, target, replacement)
  {
    assert OccursAt(target + b, target, 0);
    assert (target + b)[|target|..] == b;
  }

  /** Text that is exactly the target becomes exactly the replacement. */
  lemma ReplaceWhole(target: string, replacement: string)
    requires target != []
    ensures Replace(target, target, replacement) == replacement
  {
    assert OccursAt(target, target, 0);
    assert target[|target|..] == [];
  }

  /** The characters String.trim removes: code points at or below U+0020. */
  predicate IsTrimmable(c: char)
  {
    c <= ' '
  }

  /** Drops the trimmable characters at the front. */
  function TrimStart(s: string): (r: string)
    ensures |r| <= |s| && r == s[|s| - |r|..]
    ensures forall i :: 0 <= i < |s| - |r| ==> IsTrimmable(s[i])
    ensures r == [] || !IsTrimmable(r[0])
  {
    if s != [] && IsTrimmable(s[0]) then TrimStart(s[1..]) else s
  }

  /** Drops the trimmable characters at the back. */
  function TrimEnd(s: string): (r: string)
    ensures |r| <= |s| && r == s[..|r|]
    ensures forall i :: |r| <= i < |s| ==> IsTrimmable(s[i])
    ensures r == [] || !IsTrimmable(r[|r| - 1])
  {
    if s != [] && IsTrimmable(s[|s| - 1]) then TrimEnd(s[..|s| - 1]) else s
  }

  /**
   * String.trim: the longest slice of `s` that neither starts nor ends with a trimmable
   * character; everything dropped on either side is trimmable.
   */
  function Trim(s: string): (r: string)
    ensures exists i, j :: 0 <= i <= j <= |s| && r == s[i..j]
              && (forall k :: 0 <= k < i ==> IsTrimmable(s[k]))
              && (forall k :: j <= k < |s| ==> IsTrimmable(s[k]))
    ensures r == [] || (!IsTrimmable(r[0]) && !IsTrimmable(r[|r| - 1]))
  {
    var front := TrimStart(s);
    var r := TrimEnd(front);
    var i := |s| - |front|;
    assert r == s[i..i + |r|];
    r
  }

  /** A character RandomStringUtils.randomAlphanumeric can draw: [a-zA-Z0-9]. */
  predicate IsAsciiAlphanumeric(c: char)
  {
    'a' <= c <= 'z' || 'A' <= c <= 'Z' || '0' <= c <= '9'
  }

  /** [A-Z0-9]. */
  predicate IsUpperAlphanumeric(c: char)
  {
    'A' <= c <= 'Z' || '0' <= c <= '9'
  }

  /** Character.toUpperCase restricted to ASCII letters; every other character is kept. */
  function UpperChar(c: char): char
  {
    if 'a' <= c <= 'z' then (c as int - 32) as char else c
  }

  /**
   * String.toUpperCase on text made of ASCII characters: each lower-case letter becomes its
   * capital, every other character is kept.
   */
  function ToUpperCase(s: string): (r: string)
    ensures |r| == |s|
    ensures forall i :: 0 <= i < |s| && 'a' <= s[i] <= 'z' ==> r[i] as int == 'A' as int + (s[i] as int - 'a' as int)
    ensures forall i :: 0 <= i < |s| && !('a' <= s[i] <= 'z') ==> r[i] == s[i]
    ensures forall i :: 0 <= i < |s| ==> IsAsciiAlphanumeric(s[i]) ==> IsUpperAlphanumeric(r[i])
  {
    seq(|s|, i requires 0 <= i < |s| => UpperChar(s[i]))
  }

  function DigitChar(d: nat): char
    requires d < 10
  {
    ('0' as int + d) as char
  }

  function DigitValue(c: char): int
  {
    c as int - '0' as int
  }

  /** Long.toString for a non-negative value: its decimal digits, most significant first. */
  function LongToString(n: nat): (r: string)
    ensures r != []
    ensures forall i :: 0 <= i < |r| ==> '0' <= r[i] <= '9'
    ensures n > 0 ==> r[0] != '0'
  {
    if n < 10 then [DigitChar(n)] else LongToString(n / 10) + [DigitChar(n % 10)]
  }

  /** Long.parseLong for a string of decimal digits: the inverse of LongToString. */
  function DecimalValue(s: string): int
  {
    if s == [] then 0 else 10 * DecimalValue(s[..|s| - 1]) + DigitValue(s[|s| - 1])
  }

  /** Reading the digits back gives the number: Long.toString loses nothing. */
  lemma {:induction false} DecimalRoundTrip(n: nat)
    ensures DecimalValue(LongToString(n)) == n
  {
    if n >= 10 {
      DecimalRoundTrip(n / 10);
      var s := LongToString(n);
      assert s[..|s| - 1] == LongToString(n / 10);
    }
  }

  /** Distinct counter values give distinct decimal strings. */
  lemma LongToStringInjective(m: nat, n: nat)
    ensures LongToString(m) == LongToString(n) ==> m == n
  {
    DecimalRoundTrip(m);
    DecimalRoundTrip(n);
  }
}
