/**
 * The two regular-expression rewrites the iCloud parser applies to a body:
 * `re.sub('<[^<]+?>', '', html)` and `re.sub(r'\s+', ' ', body).strip()`,
 * written as explicit scans with Python `re.sub`'s meaning: matches are
 * searched left to right, never overlap, and scanning resumes after each one.
 */
module HtmlText {
  import opened Common
  import opened PyStr

  /** `t` as a whole matches `<[^<]+?>`: a `<`, at least one non-`<`, a `>`. */
  ghost predicate IsTag(t: string) {
    && |t| >= 3
    && t[0] == '<'
    && t[|t| - 1] == '>'
    && forall k | 1 <= k < |t| - 1 :: t[k] != '<'
  }

  /**
   * The lazy quantifier at work on `s`, which starts with `<`: `s[1..j]` has
   * been taken by `[^<]+?` (no `<` in it, and no `>` that could have ended the
   * match earlier); the scan tries `>` at `j`, else takes one more character.
   * The result is the length of the shortest prefix of `s` that matches.
   */
  function TagEnd(s: string, j: nat): (r: Option<nat>)
    requires |s| > 0 && s[0] == '<' && 1 <= j <= |s|
    requires forall k | 1 <= k < j :: s[k] != '<'
    requires forall k | 2 <= k < j :: s[k] != '>'
    ensures r.Some? ==> j < r.value <= |s| && IsTag(s[..r.value])
    ensures r.Some? ==> forall m | 0 <= m < r.value :: !IsTag(s[..m])
    ensures r.None? ==> forall m | 0 <= m <= |s| :: !IsTag(s[..m])
    decreases |s| - j
  {
    if j == |s| then
      assert forall m | 0 <= m <= |s| :: !IsTag(s[..m]) by {
        forall m | 3 <= m <= |s| ensures !IsTag(s[..m]) {
          assert s[..m][m - 1] == s[m - 1];
        }
      }
      None
    else if s[j] == '<' then
      assert forall m | 0 <= m <= |s| :: !IsTag(s[..m]) by {
        forall m | 3 <= m <= |s| ensures !IsTag(s[..m]) {
          if m > j + 1 {
            assert s[..m][j] == '<';
          } else {
            assert s[..m][m - 1] == s[m - 1];
          }
        }
      }
      None
    else if s[j] == '>' && j >= 2 then
      assert forall m | 0 <= m < j + 1 :: !IsTag(s[..m]) by {
        forall m | 3 <= m < j + 1 ensures !IsTag(s[..m]) {
          assert s[..m][m - 1] == s[m - 1];
        }
      }
      Some(j + 1)
    else
      TagEnd(s, j + 1)
  }

  /** The length of the match of `<[^<]+?>` at the start of `s`, if there is one. */
  function TagLength(s: string): (r: Option<nat>)
    ensures r.Some? ==> 3 <= r.value <= |s| && IsTag(s[..r.value])
    ensures r.Some? ==> forall m | 0 <= m < r.value :: !IsTag(s[..m])
    ensures r.None? ==> forall m | 0 <= m <= |s| :: !IsTag(s[..m])
  {
    if |s| > 0 && s[0] == '<' then TagEnd(s, 1)
    else
      assert forall m | 0 <= m <= |s| :: !IsTag(s[..m]) by {
        forall m | 3 <= m <= |s| ensures !IsTag(s[..m]) {
          assert s[..m][0] == s[0];
        }
      }
      None
  }

  /** `re.sub('<[^<]+?>', '', s)` */
  function StripTags(s: string): (r: string)
    decreases |s|
  {
    if s == [] then []
    else match TagLength(s)
      case Some(n) => StripTags(s[n..])
      case None => [s[0]] + StripTags(s[1..])
  }

  /**
   * From `j` on, the scan meets neither `<` nor `>` until the `>` at `n`,
   * so the match ends there.
   */
  lemma {:induction false} TagEndAt(s: string, j: nat, n: nat)
    requires |s| > 0 && s[0] == '<' && 1 <= j <= n < |s| && n >= 2 && s[n] == '>'
    requires forall k | 1 <= k < n :: s[k] != '<' && s[k] != '>'
    ensures TagEnd(s, j) == Some(n + 1)
    decreases n - j
  {
    if j < n {
      TagEndAt(s, j + 1, n);
    }
  }

  /** `<x>`, for any non-empty `x` without `<` or `>`, is the match at the start of `<x>` followed by anything. */
  lemma TagLengthOfTag(x: string, b: string)
    requires x != [] && '<' !in x && '>' !in x
    ensures TagLength("<" + x + ">" + b) == Some(|x| + 2)
  {
    var s := "<" + x + ">" + b;
    assert s[0] == '<' && s[|x| + 1] == '>';
    assert forall k | 1 <= k < |x| + 1 :: s[k] == x[k - 1];
    TagEndAt(s, 1, |x| + 1);
  }

  /** A match needs a closing `>`, so text without one starts no match. */
  lemma NoCloserNoTag(s: string)
    requires '>' !in s
    ensures TagLength(s) == None
  {
  }

  /** No match starts at any index of `a` inside `a + b`. */
  ghost predicate NoMatchIn(a: string, b: string) {
    forall i | 0 <= i < |a| :: TagLength((a + b)[i..]) == None
  }

  /** A `<`-free `a` starts no match, whatever follows it. */
  lemma NoMatchWithoutOpener(a: string, b: string)
    requires '<' !in a
    ensures NoMatchIn(a, b)
  {
    forall i | 0 <= i < |a| ensures TagLength((a + b)[i..]) == None {
      assert (a + b)[i..][0] == a[i];
    }
  }

  /**
   * Every character at which no match starts is kept where it stands,
   * a `<` included, and the scan goes on with the next one.
   */
  lemma {:induction false} StripTagsKeepsUnmatched(a: string, b: string)
    requires NoMatchIn(a, b)
    ensures StripTags(a + b) == a + StripTags(b)
    decreases |a|
  {
    if a == [] {
      assert a + b == b;
    } else {
      var s := a + b;
      assert s[0..] == s;
      assert TagLength(s) == None;
      assert s[1..] == a[1..] + b;
      forall i | 0 <= i < |a[1..]| ensures TagLength((a[1..] + b)[i..]) == None {
        assert (a[1..] + b)[i..] == s[i + 1..];
      }
      StripTagsKeepsUnmatched(a[1..], b);
      assert [a[0]] + (a[1..] + StripTags(b)) == a + StripTags(b);
    }
  }

  /** Text without `>` comes back unchanged: an unclosed `<a` stays `<a`. */
  lemma StripTagsWithoutCloser(s: string)
    requires '>' !in s
    ensures StripTags(s) == s
  {
    forall i | 0 <= i < |s| ensures TagLength((s + [])[i..]) == None {
      assert '>' !in (s + [])[i..] by {
        assert forall k | 0 <= k < |s| - i :: (s + [])[i..][k] == s[i + k];
      }
      NoCloserNoTag((s + [])[i..]);
    }
    StripTagsKeepsUnmatched(s, []);
    assert s + [] == s;
  }

  /**
   * A matched tag is deleted, the text before it is kept when no match
   * starts inside it, and the scan goes on after the tag.
   */
  lemma StripTagsAt(a: string, t: string, b: string)
    requires NoMatchIn(a, t + b) && TagLength(t + b) == Some(|t|)
    ensures StripTags(a + t + b) == a + StripTags(b)
  {
    assert a + t + b == a + (t + b);
    StripTagsKeepsUnmatched(a, t + b);
    assert t + b != [];
    assert (t + b)[|t|..] == b;
  }

  /** So `a<x>b` loses exactly the tag `<x>`, for every tag body `x` without `<` or `>`. */
  lemma StripTagsOfTag(a: string, x: string, b: string)
    requires NoMatchIn(a, "<" + x + ">" + b) && x != [] && '<' !in x && '>' !in x
    ensures StripTags(a + ("<" + x + ">") + b) == a + StripTags(b)
  {
    var t := "<" + x + ">";
    TagLengthOfTag(x, b);
    assert t + b == "<" + x + ">" + b;
    StripTagsAt(a, t, b);
  }

  /** `<a` with no closing `>` survives the rewrite. */
  lemma UnclosedTagKept()
    ensures StripTags("<a") == "<a"
  {
    StripTagsWithoutCloser("<a");
  }

  /**
   * Stripping tags never lengthens the text, and what it keeps is the text's
   * own characters in their original order.
   */
  lemma {:induction false} StripTagsKeepsOrder(s: string)
    ensures |StripTags(s)| <= |s|
    ensures IsSubsequence(StripTags(s), s)
    decreases |s|
  {
    if s != [] {
      match TagLength(s)
      case Some(n) =>
        StripTagsKeepsOrder(s[n..]);
        SubsequenceOfSuffix(StripTags(s), s, n);
      case None =>
        StripTagsKeepsOrder(s[1..]);
        var r := StripTags(s[1..]);
        assert ([s[0]] + r)[1..] == r;
    }
  }

  /** Text with no `<` is left exactly as it is. */
  lemma {:induction false} StripTagsWithoutOpener(s: string)
    requires '<' !in s
    ensures StripTags(s) == s
    decreases |s|
  {
    if s != [] {
      assert s[0] != '<';
      assert '<' !in s[1..];
      StripTagsWithoutOpener(s[1..]);
      assert [s[0]] + s[1..] == s;
    }
  }

  /**
   * A match ends at the first `>` after the `<` that follows at least one
   * other character, so `<a<b>>` loses only `<b>` and leaves the tag-shaped
   * text `<a>` behind: the result need not be free of tags.
   */
  lemma NestedTagLeavesTag()
    ensures StripTags("<a<b>>") == "<a>"
    ensures IsTag("<a>")
  {
    var s := "<a<b>>";
    assert TagEnd(s, 1) == None by {
      assert s[1] == 'a' && s[2] == '<';
      assert TagEnd(s, 1) == TagEnd(s, 2);
    }
    assert StripTags(s) == "<" + StripTags(s[1..]);
    var s1 := s[1..];
    assert s1 == "a<b>>";
    assert StripTags(s1) == "a" + StripTags(s1[1..]);
    var s2 := s1[1..];
    assert s2 == "<b>>";
    assert TagEnd(s2, 1) == Some(3) by {
      assert TagEnd(s2, 1) == TagEnd(s2, 2);
    }
    assert StripTags(s2) == StripTags(s2[3..]);
    assert s2[3..] == ">";
    assert StripTags(">") == ">" + StripTags([]);
  }

  /** `re.sub(r'\s+', ' ', s)`: each maximal run of whitespace becomes one space. */
  function CollapseSpace(s: string): (r: string)
    ensures r == [] <==> s == []
    ensures r != [] ==> (IsSpace(r[0]) <==> IsSpace(s[0]))
    decreases |s|
  {
    if s == [] then []
    else if IsSpace(s[0]) then [' '] + CollapseSpace(LStrip(s))
    else [s[0]] + CollapseSpace(s[1..])
  }

  /**
   * After collapsing, the only whitespace is `' '`, no two whitespace
   * characters are adjacent, and the text ends in whitespace exactly when
   * the input did.
   */
  lemma {:induction false} CollapseSpaceShape(s: string)
    ensures var r := CollapseSpace(s);
      && (r != [] ==> (IsSpace(r[|r| - 1]) <==> IsSpace(s[|s| - 1])))
      && SingleSpaced(r)
    decreases |s|
  {
    if s != [] {
      var rest := if IsSpace(s[0]) then LStrip(s) else s[1..];
      CollapseSpaceShape(rest);
      var tail := CollapseSpace(rest);
      var r := CollapseSpace(s);
      assert r == [r[0]] + tail;
      assert (IsSpace(s[0]) ==> tail == [] || !IsSpace(tail[0]))
        && (rest != [] ==> rest[|rest| - 1] == s[|s| - 1])
        && (IsSpace(s[0]) && rest == [] ==> IsSpace(s[|s| - 1])) by {
        LStripSpec(s);
      }
      SingleSpacedCons(r[0], tail);
    }
  }

  /** One more character in front keeps single spacing when it is a lone `' '` or no space. */
  lemma SingleSpacedCons(c: char, tail: string)
    requires SingleSpaced(tail)
    requires IsSpace(c) ==> c == ' ' && (tail == [] || !IsSpace(tail[0]))
    ensures SingleSpaced([c] + tail)
  {
    var r := [c] + tail;
    assert forall k | 1 <= k < |r| :: r[k] == tail[k - 1];
  }

  /** Collapsing keeps every character that is not whitespace, in order. */
  lemma {:induction false} CollapseSpaceKeepsNonSpace(s: string)
    ensures NonSpace(CollapseSpace(s)) == NonSpace(s)
    decreases |s|
  {
    if s != [] {
      if IsSpace(s[0]) {
        var rest := LStrip(s);
        LStripSpec(s);
        CollapseSpaceKeepsNonSpace(rest);
        assert s == s[..|s| - |rest|] + rest;
        NonSpaceAppend(s[..|s| - |rest|], rest);
        NonSpaceOfAllSpace(s[..|s| - |rest|]);
        NonSpaceAppend(" ", CollapseSpace(rest));
      } else {
        CollapseSpaceKeepsNonSpace(s[1..]);
        NonSpaceAppend([s[0]], CollapseSpace(s[1..]));
        NonSpaceAppend([s[0]], s[1..]);
        assert [s[0]] + s[1..] == s;
      }
    }
  }

  /** Collapsing works piece by piece across a boundary that follows a non-space. */
  lemma {:induction false} CollapseSpaceAppend(a: string, b: string)
    requires a == [] || !IsSpace(a[|a| - 1])
    ensures CollapseSpace(a + b) == CollapseSpace(a) + CollapseSpace(b)
    decreases |a|
  {
    if a == [] {
      assert a + b == b;
    } else if IsSpace(a[0]) {
      var rest := LStrip(a);
      LStripKeepsLast(a);
      LStripAppend(a, b);
      CollapseSpaceAppend(rest, b);
    } else {
      assert (a + b)[1..] == a[1..] + b;
      CollapseSpaceAppend(a[1..], b);
    }
  }

  /** A run of whitespace followed by a non-space (or the end) becomes one space. */
  lemma CollapseSpaceRun(w: string, b: string)
    requires w != [] && AllSpace(w) && (b == [] || !IsSpace(b[0]))
    ensures CollapseSpace(w + b) == " " + CollapseSpace(b)
  {
    LStripSpacesThen(w, b);
    assert (w + b)[0] == w[0];
  }

  /**
   * `re.sub(r'\s+', ' ', s)` replaces each maximal whitespace run, wherever
   * it stands, by exactly one space, and leaves the text on either side to
   * be collapsed on its own.
   */
  lemma CollapseSpaceBetween(a: string, w: string, b: string)
    requires a == [] || !IsSpace(a[|a| - 1])
    requires w != [] && AllSpace(w) && (b == [] || !IsSpace(b[0]))
    ensures CollapseSpace(a + w + b) == CollapseSpace(a) + " " + CollapseSpace(b)
  {
    ConcatAssoc(a, w, b);
    CollapseSpaceAppend(a, w + b);
    CollapseSpaceRun(w, b);
    ConcatAssoc(CollapseSpace(a), " ", CollapseSpace(b));
  }

  lemma ConcatAssoc(x: string, y: string, z: string)
    ensures x + (y + z) == x + y + z
  {
  }

  /** Text without whitespace is left as it is. */
  lemma {:induction false} CollapseSpaceOfWord(t: string)
    requires forall k | 0 <= k < |t| :: !IsSpace(t[k])
    ensures CollapseSpace(t) == t
    decreases |t|
  {
    if t != [] {
      CollapseSpaceOfWord(t[1..]);
      assert t == [t[0]] + t[1..];
    }
  }

  /** No whitespace other than `' '`, and no two whitespace characters in a row. */
  ghost predicate SingleSpaced(t: string) {
    && (forall k | 0 <= k < |t| && IsSpace(t[k]) :: t[k] == ' ')
    && (forall k | 0 <= k < |t| - 1 :: !(IsSpace(t[k]) && IsSpace(t[k + 1])))
  }

  lemma SliceSingleSpaced(t: string, i: nat, j: nat)
    requires i <= j <= |t| && SingleSpaced(t)
    ensures SingleSpaced(t[i..j])
  {
    var u := t[i..j];
    assert forall k | 0 <= k < |u| :: u[k] == t[i + k];
  }

  /** A body after `re.sub(r'\s+', ' ', body).strip()`. */
  ghost predicate IsCleanText(t: string) {
    && (t == [] || (!IsSpace(t[0]) && !IsSpace(t[|t| - 1])))
    && SingleSpaced(t)
  }

  lemma CollapseThenStripIsClean(s: string)
    ensures IsCleanText(Strip(CollapseSpace(s)))
  {
    var c := CollapseSpace(s);
    var r := Strip(c);
    assert SingleSpaced(r) by {
      CollapseSpaceShape(s);
      StripIsSlice(c);
      SliceSingleSpaced(c, StripStart(c), StripStart(c) + |r|);
    }
    StripEnds(c);
  }

  lemma CollapseThenStripKeepsNonSpace(s: string)
    ensures NonSpace(Strip(CollapseSpace(s))) == NonSpace(s)
  {
    CollapseSpaceKeepsNonSpace(s);
    StripKeepsNonSpace(CollapseSpace(s));
  }

  /**
   * `re.sub(r'\s+', ' ', s).strip()`: no whitespace at either end, no two
   * whitespace characters in a row, no whitespace but `' '`, and every other
   * character of `s` kept in order.
   */
  function CleanSpace(s: string): (r: string)
    ensures IsCleanText(r)
    ensures NonSpace(r) == NonSpace(s)
  {
    CollapseThenStripIsClean(s);
    CollapseThenStripKeepsNonSpace(s);
    Strip(CollapseSpace(s))
  }

  /**
   * Between two words the clean-up leaves exactly one space: whitespace
   * inside the text is never deleted, only shortened to `' '`.
   */
  lemma CleanSpaceBetween(a: string, w: string, b: string)
    requires a != [] && !IsSpace(a[|a| - 1])
    requires w != [] && AllSpace(w) && b != [] && !IsSpace(b[0])
    ensures CleanSpace(a + w + b) == CleanSpace(a) + " " + CleanSpace(b)
  {
    var A := CollapseSpace(a);
    var B := CollapseSpace(b);
    CollapseSpaceBetween(a, w, b);
    CollapseSpaceShape(a);
    assert A != [] && !IsSpace(A[|A| - 1]);
    assert B != [] && !IsSpace(B[0]);
    StripJoin(A, B);
  }

  /** Collapsing leaves text that is already single-spaced and starts with a non-space as it is. */
  lemma {:induction false} CollapseSingleSpaced(t: string)
    requires SingleSpaced(t) && (t == [] || !IsSpace(t[0]))
    ensures CollapseSpace(t) == t
    decreases |t|
  {
    if t != [] {
      var u := t[1..];
      SliceSingleSpaced(t, 1, |t|);
      if u != [] && IsSpace(u[0]) {
        var w := u[1..];
        assert u[0] == ' ';
        assert w == [] || !IsSpace(w[0]) by {
          if w != [] {
            assert w[0] == t[2];
          }
        }
        assert LStrip(u) == w;
        SliceSingleSpaced(t, 2, |t|);
        CollapseSingleSpaced(w);
        assert u == [u[0]] + w;
      } else {
        CollapseSingleSpaced(u);
      }
      assert t == [t[0]] + u;
    }
  }

  /** Non-empty, without whitespace. */
  predicate IsWord(t: string) {
    t != [] && forall k | 0 <= k < |t| :: !IsSpace(t[k])
  }

  /** A word is already clean. */
  lemma CleanSpaceOfWord(t: string)
    requires IsWord(t)
    ensures CleanSpace(t) == t
  {
    CollapseSpaceOfWord(t);
    StripUntrimmed(t);
  }

  /** Two words, however spaced, collapse to the words with a single space between them. */
  lemma CollapseTwoWords(a: string, w: string, b: string)
    requires IsWord(a) && IsWord(b) && w != [] && AllSpace(w)
    ensures CollapseSpace(a + w + b) == a + " " + b
  {
    assert !IsSpace(a[|a| - 1]) && !IsSpace(b[0]);
    CollapseSpaceOfWord(a);
    CollapseSpaceOfWord(b);
    CollapseSpaceBetween(a, w, b);
  }

  /** Two words, however spaced, clean to the words with a single space between them. */
  lemma CleanTwoWords(a: string, w: string, b: string)
    requires IsWord(a) && IsWord(b) && w != [] && AllSpace(w)
    ensures CleanSpace(a + w + b) == a + " " + b
  {
    CollapseTwoWords(a, w, b);
    var r := a + " " + b;
    assert r[0] == a[0] && r[|r| - 1] == b[|b| - 1];
    StripUntrimmed(r);
  }

  /** Three words, however spaced, clean to the words with a single space between each two. */
  lemma CleanThreeWords(a: string, w1: string, b: string, w2: string, c: string)
    requires IsWord(a) && IsWord(b) && IsWord(c)
    requires w1 != [] && AllSpace(w1) && w2 != [] && AllSpace(w2)
    ensures CleanSpace(a + w1 + b + w2 + c) == a + " " + b + " " + c
  {
    var tail := b + w2 + c;
    assert a + w1 + b + w2 + c == a + w1 + tail;
    assert !IsSpace(a[|a| - 1]) && !IsSpace(tail[0]);
    CollapseTwoWords(b, w2, c);
    CollapseSpaceOfWord(a);
    CollapseSpaceBetween(a, w1, tail);
    var r := a + " " + (b + " " + c);
    assert r == a + " " + b + " " + c;
    assert r[0] == a[0] && r[|r| - 1] == c[|c| - 1];
    StripUntrimmed(r);
  }

  /** Clean text is its own `CleanSpace`, so cleaning twice is cleaning once. */
  lemma CleanSpaceOfClean(t: string)
    requires IsCleanText(t)
    ensures CleanSpace(t) == t
  {
    CollapseSingleSpaced(t);
    StripUntrimmed(t);
  }

  lemma CleanSpaceIdempotent(s: string)
    ensures CleanSpace(CleanSpace(s)) == CleanSpace(s)
  {
    CleanSpaceOfClean(CleanSpace(s));
  }
}
