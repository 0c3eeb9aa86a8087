/** The .NET string operations the plugin relies on, over `seq<char>`:
    `Split` on one separator, `Replace(c, "")`, `Contains`, the `RemoveLastIfEndsWith`
    helper of the plugin's Utils (taken to strip one trailing occurrence of the suffix),
    and integer formatting. */
module Text {

  /** `s.Split(d)`: the pieces between separators, in order; never empty. */
  function Split(s: string, d: char): (r: seq<string>)
    ensures |r| >= 1
    ensures forall k :: 0 <= k < |r| ==> d !in r[k]
    decreases |s|
  {
    if |s| == 0 then [""]
    else
      var rest := Split(s[1..], d);
      if s[0] == d then [""] + rest
      else [[s[0]] + rest[0]] + rest[1..]
  }

  /** A string without the separator splits into itself. */
  lemma {:induction false} SplitNoSeparator(w: string, d: char)
    requires d !in w
    ensures Split(w, d) == [w]
    decreases |w|
  {
    if |w| > 0 {
      SplitNoSeparator(w[1..], d);
      assert [w[0]] + w[1..] == w;
    }
  }

  /** A leading piece without the separator comes off as the first piece. */
  lemma {:induction false} SplitPrefix(w: string, d: char, rest: string)
    requires d !in w
    ensures Split(w + [d] + rest, d) == [w] + Split(rest, d)
    decreases |w|
  {
    var s := w + [d] + rest;
    if |w| == 0 {
      assert s[1..] == rest;
    } else {
      assert s[1..] == w[1..] + [d] + rest;
      SplitPrefix(w[1..], d, rest);
      assert [w[0]] + w[1..] == w;
    }
  }

  /** `RemoveLastIfEndsWith(s, c)`: drops one trailing `c`, if there is one. */
  function RemoveLastIfEndsWith(s: string, c: char): (r: string)
    ensures |s| > 0 && s[|s| - 1] == c ==> s == r + [c]
    ensures !(|s| > 0 && s[|s| - 1] == c) ==> r == s
  {
    if |s| > 0 && s[|s| - 1] == c then s[..|s| - 1] else s
  }

  /** `s.Replace(c.ToString(), "")`: every `c` removed, the other characters kept in order. */
  function RemoveAll(s: string, c: char): (r: string)
    ensures c !in r
    ensures c !in s ==> r == s
    ensures |r| <= |s|
    ensures forall k :: 0 <= k < |r| ==> r[k] in s
    ensures |s| == 1 ==> r == if s[0] == c then "" else s
  {
    if |s| == 0 then ""
    else if s[0] == c then RemoveAll(s[1..], c)
    else [s[0]] + RemoveAll(s[1..], c)
  }

  /** Removal distributes over concatenation; with the one-character case this fixes
      `RemoveAll` on every string: each `c` dropped, every other character kept, in order. */
  lemma {:induction false} RemoveAllAppend(s: string, t: string, c: char)
    ensures RemoveAll(s + t, c) == RemoveAll(s, c) + RemoveAll(t, c)
    decreases |s|
  {
    if |s| == 0 {
      assert s + t == t;
    } else {
      assert (s + t)[0] == s[0];
      assert (s + t)[1..] == s[1..] + t;
      RemoveAllAppend(s[1..], t, c);
    }
  }

  /** Removing `c` from `w + [c]` gives `w` when `w` holds no `c`. */
  lemma RemoveAllTrailing(w: string, c: char)
    requires c !in w
    ensures RemoveAll(w + [c], c) == w
    decreases |w|
  {
    if |w| == 0 {
      assert w + [c] == [c];
      assert [c][1..] == [];
    } else {
      assert (w + [c])[1..] == w[1..] + [c];
      RemoveAllTrailing(w[1..], c);
    }
  }

  /** `t` occurs in `s` starting at index `i`. */
  predicate OccursAt(s: string, t: string, i: int) {
    0 <= i && i + |t| <= |s| && s[i..i + |t|] == t
  }

  /** `s.Contains(t)`, the ordinal substring test. */
  predicate Contains(s: string, t: string): (b: bool)
    ensures b ==> |t| <= |s|
    ensures t <= s ==> b
  {
    assert t <= s ==> OccursAt(s, t, 0);
    exists i | 0 <= i <= |s| - |t| :: OccursAt(s, t, i)
  }

  /** Past the end of `w`, occurrences in `w + rest` are those in `rest`, shifted. */
  lemma OccursShift(w: string, rest: string, t: string, j: int)
    requires 0 <= j
    ensures OccursAt(w + rest, t, j + |w|) <==> OccursAt(rest, t, j)
  {
    if j + |t| <= |rest| {
      assert (w + rest)[j + |w|..j + |w| + |t|] == rest[j..j + |t|];
    }
  }

  /** An occurrence cannot start at a position holding a character other than `t`'s first. */
  lemma NoStartAt(s: string, t: string, i: int)
    requires |t| >= 1 && 0 <= i < |s| && s[i] != t[0]
    ensures !OccursAt(s, t, i)
  {
    if i + |t| <= |s| {
      assert s[i..i + |t|][0] == s[i];
    }
  }

  /** When no character of `w` after its first equals the first character of `t`,
      an occurrence of `t` in `w + rest` starts at 0 or lies wholly inside `rest`. */
  lemma ContainsAfterHead(w: string, rest: string, t: string)
    requires |w| >= 1 && |t| >= 1
    requires forall i :: 1 <= i < |w| ==> w[i] != t[0]
    ensures Contains(w + rest, t) <==> OccursAt(w + rest, t, 0) || Contains(rest, t)
  {
    var s, n, m := w + rest, |w|, |t|;
    forall i | 1 <= i < n
      ensures !OccursAt(s, t, i)
    {
      assert s[i] == w[i];
      NoStartAt(s, t, i);
    }
    if Contains(s, t) && !OccursAt(s, t, 0) {
      var i :| 0 <= i <= |s| - m && OccursAt(s, t, i);
      assert n <= i;
      OccursShift(w, rest, t, i - n);
      assert OccursAt(rest, t, i - n);
    }
    if Contains(rest, t) {
      var j :| 0 <= j <= |rest| - m && OccursAt(rest, t, j);
      OccursShift(w, rest, t, j);
      assert OccursAt(s, t, j + n);
    }
  }

  /** Nothing non-empty occurs in the empty string. */
  lemma NotContainedInEmpty(t: string)
    requires |t| >= 1
    ensures !Contains("", t)
  {
  }

  /** The character of the decimal digit `n`. */
  function DigitChar(n: int): (c: char)
    requires 0 <= n < 10
    ensures '0' <= c <= '9'
    ensures c as int - '0' as int == n
  {
    ('0' as int + n) as char
  }

  /** The number a string of decimal digits spells, most significant digit first. */
  function DigitsValue(s: string): nat
    requires forall k :: 0 <= k < |s| ==> '0' <= s[k] <= '9'
  {
    if |s| == 0 then 0
    else DigitsValue(s[..|s| - 1]) * 10 + (s[|s| - 1] as int - '0' as int)
  }

  /** Decimal digits of a natural number, most significant first, no leading zeros. */
  function NatToString(n: nat): (r: string)
    ensures |r| >= 1
    ensures forall k :: 0 <= k < |r| ==> '0' <= r[k] <= '9'
    ensures DigitsValue(r) == n
    ensures r[0] == '0' ==> r == "0"
  {
    if n < 10 then [DigitChar(n)]
    else
      var init := NatToString(n / 10);
      var r := init + [DigitChar(n % 10)];
      assert r[..|r| - 1] == init;
      r
  }

  /** `n.ToString()` for an `int`: a leading '-' exactly when negative, then the digits of
      the magnitude, without leading zeros. */
  function IntToString(n: int): (r: string)
    ensures |r| >= 1
    ensures n >= 0 <==> r[0] != '-'
    ensures r[0] == '-' || '0' <= r[0] <= '9'
    ensures n >= 0 ==> r == NatToString(n) && DigitsValue(r) == n
    ensures n < 0 ==> r == "-" + NatToString(-n) && DigitsValue(r[1..]) == -n
  {
    if n >= 0 then NatToString(n) else "-" + NatToString(-n)
  }

  /** Different numbers format differently. */
  lemma IntToStringInjective(a: int, b: int)
    ensures IntToString(a) == IntToString(b) ==> a == b
  {
  }

  /** Text with a leading zero, such as "04510", is the formatting of no number. */
  lemma NoLeadingZero(n: int, text: string)
    requires |text| >= 2 && text[0] == '0'
    ensures IntToString(n) != text
  {
  }
}
