/**
 * The Python `str` operations the triage scripts rely on, written out on
 * `seq<char>` (a Dafny `char` is a Unicode scalar value, as a Python `str`
 * element is a code point).
 */
module PyStr {

  /**
   * `str.isspace()` for one character: the characters that `str.strip()`
   * removes and that `\s` matches in a `str` pattern of Python's `re`.
   */
  predicate IsSpace(c: char) {
    || ('\t' <= c <= '\r')                // \t \n \v \f \r
    || ('\U{1C}' <= c <= '\U{1F}')        // file, group, record and unit separators
    || c == ' ' || c == '\U{85}' || c == '\U{A0}' || c == '\U{1680}'
    || ('\U{2000}' <= c <= '\U{200A}')
    || c == '\U{2028}' || c == '\U{2029}' || c == '\U{202F}' || c == '\U{205F}' || c == '\U{3000}'
  }

  ghost predicate AllSpace(s: string) {
    forall k | 0 <= k < |s| :: IsSpace(s[k])
  }

  /** The characters of `s` that are not whitespace, in order. */
  function NonSpace(s: string): (r: string)
    ensures |r| <= |s|
  {
    if s == [] then []
    else if IsSpace(s[0]) then NonSpace(s[1..])
    else [s[0]] + NonSpace(s[1..])
  }

  lemma {:induction false} NonSpaceAppend(a: string, b: string)
    ensures NonSpace(a + b) == NonSpace(a) + NonSpace(b)
  {
    if a == [] {
      assert a + b == b;
    } else {
      assert (a + b)[1..] == a[1..] + b;
      NonSpaceAppend(a[1..], b);
    }
  }

  lemma {:induction false} NonSpaceOfAllSpace(s: string)
    requires AllSpace(s)
    ensures NonSpace(s) == []
  {
    if s != [] {
      NonSpaceOfAllSpace(s[1..]);
    }
  }

  /** `s.lstrip()` */
  function LStrip(s: string): (r: string)
    ensures |r| <= |s|
  {
    if s != [] && IsSpace(s[0]) then LStrip(s[1..]) else s
  }

  /** `lstrip` removes the leading run of whitespace, and only it. */
  lemma {:induction false} LStripSpec(s: string)
    ensures var r := LStrip(s);
      && r == s[|s| - |r|..]
      && AllSpace(s[..|s| - |r|])
      && (r == [] || !IsSpace(r[0]))
  {
    if s != [] && IsSpace(s[0]) {
      LStripSpec(s[1..]);
      var r := LStrip(s);
      assert s[..|s| - |r|] == [s[0]] + s[1..][..|s| - 1 - |r|];
    }
  }

  /** `s.rstrip()` */
  function RStrip(s: string): (r: string)
    ensures |r| <= |s|
  {
    if s != [] && IsSpace(s[|s| - 1]) then RStrip(s[..|s| - 1]) else s
  }

  /** `rstrip` removes the trailing run of whitespace, and only it. */
  lemma {:induction false} RStripSpec(s: string)
    ensures var r := RStrip(s);
      && r == s[..|r|]
      && AllSpace(s[|r|..])
      && (r == [] || !IsSpace(r[|r| - 1]))
  {
    if s != [] && IsSpace(s[|s| - 1]) {
      var u := s[..|s| - 1];
      RStripSpec(u);
      var r := RStrip(s);
      assert s[|r|..] == u[|r|..] + [s[|s| - 1]];
    }
  }

  /** `s.strip()` */
  function Strip(s: string): (r: string)
    ensures |r| <= |s|
  {
    RStrip(LStrip(s))
  }

  /** What `strip` returns has no whitespace at either end. */
  lemma StripEnds(s: string)
    ensures var r := Strip(s);
      r == [] || (!IsSpace(r[0]) && !IsSpace(r[|r| - 1]))
  {
    var l := LStrip(s);
    LStripSpec(s);
    RStripSpec(l);
    var r := RStrip(l);
    if r != [] {
      assert r[0] == l[0];
    }
  }

  /** Leading whitespace before text that starts with a non-space all goes. */
  lemma {:induction false} LStripSpacesThen(w: string, b: string)
    requires AllSpace(w) && (b == [] || !IsSpace(b[0]))
    ensures LStrip(w + b) == b
    decreases |w|
  {
    if w == [] {
      assert w + b == b;
    } else {
      assert (w + b)[1..] == w[1..] + b;
      LStripSpacesThen(w[1..], b);
    }
  }

  /** `lstrip` of text ending in a non-space keeps that last character. */
  lemma LStripKeepsLast(a: string)
    requires a != [] && !IsSpace(a[|a| - 1])
    ensures var r := LStrip(a); r != [] && r[|r| - 1] == a[|a| - 1]
  {
    LStripSpec(a);
  }

  /** `lstrip` of text ending in a non-space never reaches what follows it. */
  lemma {:induction false} LStripAppend(a: string, b: string)
    requires a != [] && !IsSpace(a[|a| - 1])
    ensures LStrip(a + b) == LStrip(a) + b
    decreases |a|
  {
    if IsSpace(a[0]) {
      assert (a + b)[1..] == a[1..] + b;
      LStripAppend(a[1..], b);
    }
  }

  /** `rstrip` of text followed by a part starting with a non-space never reaches back into it. */
  lemma {:induction false} RStripAppend(a: string, b: string)
    requires b != [] && !IsSpace(b[0])
    ensures RStrip(a + b) == a + RStrip(b)
    decreases |b|
  {
    if IsSpace(b[|b| - 1]) {
      var b' := b[..|b| - 1];
      assert (a + b)[..|a + b| - 1] == a + b';
      RStripAppend(a, b');
    }
  }

  /** Where the text that `strip` keeps starts. */
  function StripStart(s: string): nat {
    |s| - |LStrip(s)|
  }

  /**
   * What `strip` leaves is one contiguous slice of the input, and everything
   * it dropped on either side is whitespace.
   */
  lemma StripIsSlice(s: string)
    ensures StripStart(s) + |Strip(s)| <= |s|
    ensures Strip(s) == s[StripStart(s)..StripStart(s) + |Strip(s)|]
    ensures AllSpace(s[..StripStart(s)]) && AllSpace(s[StripStart(s) + |Strip(s)|..])
  {
    var l := LStrip(s);
    var i := |s| - |l|;
    var r := RStrip(l);
    LStripSpec(s);
    RStripSpec(l);
    assert s[i..i + |r|] == l[..|r|];
    assert s[i + |r|..] == l[|r|..];
  }

  /** Stripping removes only whitespace: every other character survives, in order. */
  lemma StripKeepsNonSpace(s: string)
    ensures NonSpace(Strip(s)) == NonSpace(s)
  {
    StripIsSlice(s);
    var i := StripStart(s);
    var r := Strip(s);
    assert s == s[..i] + r + s[i + |r|..];
    NonSpaceAppend(s[..i] + r, s[i + |r|..]);
    NonSpaceAppend(s[..i], r);
    NonSpaceOfAllSpace(s[..i]);
    NonSpaceOfAllSpace(s[i + |r|..]);
  }

  lemma StripAllSpace(s: string)
    requires AllSpace(s)
    ensures Strip(s) == []
  {
    StripIsSlice(s);
    StripEnds(s);
  }

  /** Whether `s` holds `t` at index `i`. */
  predicate OccursAt(s: string, t: string, i: nat) {
    i + |t| <= |s| && s[i..i + |t|] == t
  }

  lemma OccursShift(s: string, t: string, i: nat)
    requires s != []
    ensures OccursAt(s, t, i + 1) <==> OccursAt(s[1..], t, i)
  {
    if i + 1 + |t| <= |s| {
      assert s[i + 1..i + 1 + |t|] == s[1..][i..i + |t|];
    }
  }

  /** `t in s` for two strings. */
  function Contains(s: string, t: string): bool
    decreases |s|
  {
    if |s| < |t| then false
    else if s[..|t|] == t then true
    else Contains(s[1..], t)
  }

  /** `Contains` is substring containment: `t` occurs in `s` at some index. */
  lemma {:induction false} ContainsSpec(s: string, t: string)
    ensures Contains(s, t) <==> exists i: nat :: OccursAt(s, t, i)
    decreases |s|
  {
    if |s| < |t| {
      // no index fits
    } else if s[..|t|] == t {
      assert OccursAt(s, t, 0);
    } else {
      ContainsSpec(s[1..], t);
      if Contains(s, t) {
        var i: nat :| OccursAt(s[1..], t, i);
        OccursShift(s, t, i);
      }
      if i: nat :| OccursAt(s, t, i) {
        assert i != 0;
        OccursShift(s, t, i - 1);
      }
    }
  }

  /**
   * `s.replace(pat, "")`: deletes the occurrences of `pat` found by one
   * left-to-right scan that does not look at its own output again, so
   * deleting may join text into a fresh occurrence that stays.
   */
  function DeleteAll(s: string, pat: string): (r: string)
    ensures |r| <= |s|
    decreases |s|
  {
    if pat == [] || |s| < |pat| then s
    else if s[..|pat|] == pat then DeleteAll(s[|pat|..], pat)
    else [s[0]] + DeleteAll(s[1..], pat)
  }

  /** `s` with every `c` filtered out. */
  function Without(s: string, c: char): string
    decreases |s|
  {
    if s == [] then []
    else if s[0] == c then Without(s[1..], c)
    else [s[0]] + Without(s[1..], c)
  }

  /**
   * The filter keeps every character but `c`, in order and as often as in
   * `s`, and no `c`.
   */
  lemma {:induction false} WithoutSpec(s: string, c: char)
    ensures var r := Without(s, c);
      && IsSubsequence(r, s)
      && (forall x :: multiset(r)[x] == if x == c then 0 else multiset(s)[x])
    decreases |s|
  {
    if s != [] {
      var rest := Without(s[1..], c);
      WithoutSpec(s[1..], c);
      assert s == [s[0]] + s[1..];
      assert multiset(s) == multiset{s[0]} + multiset(s[1..]);
      if s[0] == c {
        SubsequenceOfTail(rest, s[1..], s[0]);
      } else {
        assert ([s[0]] + rest)[1..] == rest;
        assert multiset([s[0]] + rest) == multiset{s[0]} + multiset(rest);
      }
    }
  }

  /**
   * Deleting a single character is filtering it out: none of it is left,
   * and everything else stays, in order.
   */
  lemma {:induction false} DeleteCharRemovesAll(s: string, c: char)
    ensures DeleteAll(s, [c]) == Without(s, c)
    ensures c !in DeleteAll(s, [c])
    decreases |s|
  {
    if |s| >= 1 {
      DeleteCharRemovesAll(s[1..], c);
      if s[..1] == [c] {
        assert s[0] == c;
      } else {
        assert s[0] != c;
      }
    }
  }

  /** Deleting a pattern that never occurs changes nothing. */
  lemma {:induction false} DeleteAbsent(s: string, pat: string)
    requires !Contains(s, pat)
    ensures DeleteAll(s, pat) == s
    decreases |s|
  {
    if pat != [] && |s| >= |pat| {
      DeleteAbsent(s[1..], pat);
    }
  }

  /** Text that begins and ends with a non-space is its own `strip()`. */
  lemma StripUntrimmed(s: string)
    requires s == [] || (!IsSpace(s[0]) && !IsSpace(s[|s| - 1]))
    ensures Strip(s) == s
  {
  }

  /** A pattern whose first character never occurs in `s` is never deleted. */
  lemma {:induction false} DeleteAbsentHead(s: string, pat: string)
    requires pat != [] && pat[0] !in s
    ensures DeleteAll(s, pat) == s
    decreases |s|
  {
    if |s| >= |pat| {
      assert s[0] != pat[0];
      assert pat[0] !in s[1..];
      DeleteAbsentHead(s[1..], pat);
    }
  }

  /** Deleting a leading occurrence of `pat`. */
  lemma DeleteLeading(pat: string, rest: string)
    requires pat != []
    ensures DeleteAll(pat + rest, pat) == DeleteAll(rest, pat)
  {
    assert (pat + rest)[..|pat|] == pat;
    assert (pat + rest)[|pat|..] == rest;
  }

  /** `pat` occurs at no index of `a` inside `a + b`. */
  ghost predicate NoOccurrenceIn(a: string, b: string, pat: string) {
    forall i | 0 <= i < |a| :: !OccursAt(a + b, pat, i)
  }

  /** An `a` free of `pat`'s first character holds no occurrence, whatever follows it. */
  lemma NoOccurrenceWithoutHead(a: string, b: string, pat: string)
    requires pat != [] && pat[0] !in a
    ensures NoOccurrenceIn(a, b, pat)
  {
    forall i | 0 <= i < |a| ensures !OccursAt(a + b, pat, i) {
      if i + |pat| <= |a + b| {
        assert (a + b)[i..i + |pat|][0] == a[i];
      }
    }
  }

  /**
   * Every character at which no occurrence of `pat` starts is kept where it
   * stands, even one equal to `pat[0]`, and the pass goes on with the next.
   */
  lemma {:induction false} DeleteKeepsUnmatched(a: string, b: string, pat: string)
    requires pat != [] && NoOccurrenceIn(a, b, pat)
    ensures DeleteAll(a + b, pat) == a + DeleteAll(b, pat)
    decreases |a|
  {
    if a == [] {
      assert a + b == b;
    } else {
      var s := a + b;
      assert !OccursAt(s, pat, 0);
      assert s[1..] == a[1..] + b;
      forall i | 0 <= i < |a[1..]| ensures !OccursAt(a[1..] + b, pat, i) {
        OccursShift(s, pat, i);
      }
      DeleteKeepsUnmatched(a[1..], b, pat);
      assert [a[0]] + (a[1..] + DeleteAll(b, pat)) == a + DeleteAll(b, pat);
    }
  }

  /**
   * An occurrence of `pat` anywhere is deleted: text before it in which no
   * occurrence starts is kept, and the pass goes on after it.
   */
  lemma DeleteAt(a: string, pat: string, b: string)
    requires pat != [] && NoOccurrenceIn(a, pat + b, pat)
    ensures DeleteAll(a + pat + b, pat) == a + DeleteAll(b, pat)
  {
    assert a + pat + b == a + (pat + b);
    DeleteKeepsUnmatched(a, pat + b, pat);
    DeleteLeading(pat, b);
  }

  /** Python's `"aab".replace("ab", "")` is `"a"`: the first `a` starts no occurrence and stays. */
  lemma DeleteAfterFalseStart()
    ensures DeleteAll("aab", "ab") == "a"
  {
    var s := "a" + ("ab" + "");
    assert s == "aab" && s[0..2] == "aa";
    assert NoOccurrenceIn("a", "ab" + "", "ab");
    DeleteAt("a", "ab", "");
    assert "a" + "ab" + "" == "aab";
  }

  /** Deleting one character works piece by piece. */
  lemma {:induction false} DeleteCharAppend(a: string, b: string, c: char)
    ensures DeleteAll(a + b, [c]) == DeleteAll(a, [c]) + DeleteAll(b, [c])
    decreases |a|
  {
    if a == [] {
      assert a + b == b;
    } else {
      assert (a + b)[1..] == a[1..] + b;
      assert (a + b)[..1] == [a[0]] && a[..1] == [a[0]];
      DeleteCharAppend(a[1..], b, c);
    }
  }

  /** `strip` of two texts joined by one space, where neither touches it with whitespace. */
  lemma StripJoin(a: string, b: string)
    requires a != [] && !IsSpace(a[|a| - 1]) && b != [] && !IsSpace(b[0])
    ensures Strip(a + " " + b) == Strip(a) + " " + Strip(b)
  {
    var l := LStrip(a);
    LStripAppend(a, " " + b);
    assert a + " " + b == a + (" " + b);
    LStripSpec(a);
    assert l != [] && l[|l| - 1] == a[|a| - 1];
    RStripAppend(l + " ", b);
    assert l + (" " + b) == (l + " ") + b;
    assert RStrip(l) == l;
    assert LStrip(b) == b;
  }

  /**
   * Text that does not start with `pat`, and has no later occurrence of its
   * first character, is left as it is.
   */
  lemma KeptWhenHeadDiffers(s: string, pat: string)
    requires pat != [] && |s| >= |pat| && s[..|pat|] != pat && pat[0] !in s[1..]
    ensures DeleteAll(s, pat) == s
  {
    DeleteAbsentHead(s[1..], pat);
    assert [s[0]] + s[1..] == s;
  }

  /** Deleting the one `c` between two `c`-free texts joins them. */
  lemma DeleteCharBetween(a: string, b: string, c: char)
    requires c !in a && c !in b
    ensures DeleteAll(a + [c] + b, [c]) == a + b
  {
    DeleteCharAppend(a + [c], b, c);
    DeleteCharAppend(a, [c], c);
    DeleteAbsentHead(a, [c]);
    DeleteAbsentHead(b, [c]);
    assert DeleteAll([c], [c]) == [] by {
      assert [c][..1] == [c] && [c][1..] == [];
    }
    assert DeleteAll(a + [c], [c]) == a;
  }

  /** Equal texts with the same prefix and suffix have the same middle. */
  lemma {:induction false} CancelAround(a: string, x: string, y: string, b: string)
    requires a + x + b == a + y + b
    ensures x == y
  {
    var s := a + x + b;
    assert |x| == |y|;
    assert x == s[|a|..|a| + |x|];
    assert y == (a + y + b)[|a|..|a| + |y|];
  }

  /** `s[:n]` */
  function Take(s: string, n: nat): (r: string)
    ensures |r| == if |s| <= n then |s| else n
    ensures r == s[..|r|]
  {
    if |s| <= n then s else s[..n]
  }

  /** `a` is obtained from `b` by deleting some of its characters. */
  predicate IsSubsequence<T(==)>(a: seq<T>, b: seq<T>)
    decreases |b|
  {
    if a == [] then true
    else if b == [] then false
    else if a[0] == b[0] then IsSubsequence(a[1..], b[1..])
    else IsSubsequence(a, b[1..])
  }

  lemma {:induction false} SubsequenceOfTail<T>(a: seq<T>, b: seq<T>, x: T)
    requires IsSubsequence(a, b)
    ensures IsSubsequence(a, [x] + b)
    decreases |b|, 1
  {
    if a != [] {
      assert ([x] + b)[1..] == b;
      if a[0] != x {
        // the definition skips x and continues on b
      } else {
        SubsequenceDropHead(a, b);
      }
    }
  }

  /** Dropping the head of a subsequence keeps it a subsequence. */
  lemma {:induction false} SubsequenceDropHead<T>(a: seq<T>, b: seq<T>)
    requires a != [] && IsSubsequence(a, b)
    ensures IsSubsequence(a[1..], b)
    decreases |b|, 0
  {
    if b != [] {
      if a[0] == b[0] {
        SubsequenceOfTail(a[1..], b[1..], b[0]);
        assert [b[0]] + b[1..] == b;
      } else {
        SubsequenceDropHead(a, b[1..]);
        SubsequenceOfTail(a[1..], b[1..], b[0]);
        assert [b[0]] + b[1..] == b;
      }
    }
  }

  lemma {:induction false} SubsequenceOfSuffix<T>(a: seq<T>, b: seq<T>, n: nat)
    requires n <= |b| && IsSubsequence(a, b[n..])
    ensures IsSubsequence(a, b)
    decreases n
  {
    if n > 0 {
      assert b[n - 1..][1..] == b[n..];
      assert [b[n - 1]] + b[n..] == b[n - 1..];
      SubsequenceOfTail(a, b[n..], b[n - 1]);
      SubsequenceOfSuffix(a, b, n - 1);
    }
  }
}
