/** The string operations the inventory screen relies on: lower-casing (`toLowerCase`),
    substring search (`includes`) and replacement of the first occurrence of a character
    (`replace` with a one-character string pattern). Lower-casing is an ASCII fold. */
module Text {

  /** Folds one ASCII capital to its lower-case letter; every other character is kept. */
  function LowerChar(c: char): (r: char)
    ensures !('A' <= r <= 'Z')
    ensures 'A' <= c <= 'Z' ==> r != c && r as int - c as int == 'a' as int - 'A' as int
    ensures !('A' <= c <= 'Z') ==> r == c
  {
    if 'A' <= c <= 'Z' then (c as int - 'A' as int + 'a' as int) as char else c
  }

  /** `s.toLowerCase()`, restricted to ASCII capitals. */
  function Lower(s: string): (r: string)
    ensures |r| == |s|
    ensures forall i :: 0 <= i < |s| ==> r[i] == LowerChar(s[i])
  {
    seq(|s|, i requires 0 <= i < |s| => LowerChar(s[i]))
  }

  /** Folding twice is folding once. */
  lemma LowerIdempotent(s: string)
    ensures Lower(Lower(s)) == Lower(s)
  {
  }

  /** Folding commutes with taking a slice. */
  lemma LowerSlice(s: string, i: int, j: int)
    requires 0 <= i <= j <= |s|
    ensures Lower(s)[i..j] == Lower(s[i..j])
  {
    assert forall k :: 0 <= k < j - i ==> Lower(s)[i..j][k] == Lower(s[i..j])[k];
  }

  /** Folding commutes with concatenation. */
  lemma LowerAppend(a: string, b: string)
    ensures Lower(a + b) == Lower(a) + Lower(b)
  {
    assert forall i :: 0 <= i < |a + b| ==> Lower(a + b)[i] == (Lower(a) + Lower(b))[i];
  }

  /** `t` occurs in `s` starting at index `i`. */
  predicate OccursAt(s: string, t: string, i: int)
  {
    0 <= i && i + |t| <= |s| && s[i..i + |t|] == t
  }

  /** `s.includes(t)`: tries every start position from the left. */
  predicate Contains(s: string, t: string)
    decreases |s|
  {
    OccursAt(s, t, 0) || (|s| > 0 && Contains(s[1..], t))
  }

  /** `Contains` finds exactly the occurrences of `t` in `s`. */
  lemma {:induction false} ContainsIff(s: string, t: string)
    ensures Contains(s, t) <==> exists i :: OccursAt(s, t, i)
    decreases |s|
  {
    if |s| > 0 {
      ContainsIff(s[1..], t);
      if Contains(s[1..], t) {
        var j :| OccursAt(s[1..], t, j);
        assert s[j + 1..j + 1 + |t|] == s[1..][j..j + |t|];
        assert OccursAt(s, t, j + 1);
      }
      if i :| OccursAt(s, t, i) && i > 0 {
        assert s[1..][i - 1..i - 1 + |t|] == s[i..i + |t|];
        assert OccursAt(s[1..], t, i - 1);
      }
    }
  }

  /** An occurrence at a known position is found. */
  lemma ContainsAt(s: string, t: string, i: int)
    requires OccursAt(s, t, i)
    ensures Contains(s, t)
  {
    ContainsIff(s, t);
  }

  /** A string that contains `t + u` contains `t`: a longer needle can only match less. */
  lemma ContainsPrefixOfNeedle(s: string, t: string, u: string)
    requires Contains(s, t + u)
    ensures Contains(s, t)
  {
    ContainsIff(s, t + u);
    var i :| OccursAt(s, t + u, i);
    assert s[i..i + |t|] == (t + u)[..|t|] == t;
    ContainsAt(s, t, i);
  }

  /** A string never contains a non-empty needle whose first character it lacks. */
  lemma MissingFirstChar(s: string, t: string)
    requires |t| > 0 && t[0] !in s
    ensures !Contains(s, t)
  {
    ContainsIff(s, t);
  }

  /** An exact-case occurrence is also a case-insensitive one. */
  lemma ContainsLower(s: string, t: string)
    requires Contains(s, t)
    ensures Contains(Lower(s), Lower(t))
  {
    ContainsIff(s, t);
    var i :| OccursAt(s, t, i);
    OccursLower(s, t, i);
    ContainsAt(Lower(s), Lower(t), i);
  }

  /** Folding keeps an occurrence where it is. */
  lemma OccursLower(s: string, t: string, i: int)
    requires OccursAt(s, t, i)
    ensures OccursAt(Lower(s), Lower(t), i)
  {
    LowerSlice(s, i, i + |t|);
  }

  /** Index of the first `c` in `s`. */
  function FirstIndex(s: string, c: char): (k: nat)
    requires c in s
    ensures k < |s| && s[k] == c && c !in s[..k]
  {
    if s[0] == c then 0 else 1 + FirstIndex(s[1..], c)
  }

  /** The first `c` is the one with no `c` before it. */
  lemma FirstIndexIs(s: string, c: char, k: int)
    requires 0 <= k < |s| && s[k] == c && c !in s[..k]
    ensures c in s && FirstIndex(s, c) == k
  {
    assert s[k] in s;
  }

  /** `s.replace(a, b)` for one-character strings `a` and `b`: only the first `a` is replaced. */
  function ReplaceFirst(s: string, a: char, b: char): (r: string)
    ensures |r| == |s|
  {
    if s == [] then s
    else if s[0] == a then [b] + s[1..]
    else [s[0]] + ReplaceFirst(s[1..], a, b)
  }

  /** Only the first `a` is replaced, at its first index; a text without `a` is unchanged. */
  lemma {:induction false} ReplaceFirstSpec(s: string, a: char, b: char)
    ensures a !in s ==> ReplaceFirst(s, a, b) == s
    ensures a in s ==> ReplaceFirst(s, a, b) == s[..FirstIndex(s, a)] + [b] + s[FirstIndex(s, a) + 1..]
    decreases |s|
  {
    if s != [] && s[0] != a {
      ReplaceFirstSpec(s[1..], a, b);
      assert s == [s[0]] + s[1..];
      if a in s {
        var k := FirstIndex(s[1..], a);
        assert s[..k + 1] == [s[0]] + s[1..][..k];
        assert s[k + 2..] == s[1..][k + 1..];
      }
    }
  }

  /** Only one occurrence goes: every later `a` survives the replacement. */
  lemma ReplaceFirstCount(s: string, a: char, b: char)
    requires a != b
    ensures a in s ==> multiset(ReplaceFirst(s, a, b))[a] == multiset(s)[a] - 1
    ensures a !in s ==> ReplaceFirst(s, a, b) == s
  {
    ReplaceFirstSpec(s, a, b);
    if a in s {
      var k := FirstIndex(s, a);
      var pre, post := s[..k], s[k + 1..];
      assert s == pre + [a] + post;
      assert multiset(s) == multiset(pre) + multiset([a]) + multiset(post);
      assert multiset(ReplaceFirst(s, a, b)) == multiset(pre) + multiset([b]) + multiset(post);
    }
  }

  /** Replacing in a text whose first `a` follows the prefix `pre` changes that one character. */
  lemma ReplaceFirstAt(pre: string, a: char, b: char, post: string)
    requires a !in pre
    ensures ReplaceFirst(pre + [a] + post, a, b) == pre + [b] + post
  {
    var s := pre + [a] + post;
    assert s[..|pre|] == pre;
    assert s[|pre| + 1..] == post;
    FirstIndexIs(s, a, |pre|);
    ReplaceFirstSpec(s, a, b);
  }
}
