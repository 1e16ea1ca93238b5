/** ASCII text helpers, and lemmas that take concatenated strings apart. */
module Text {
  function LowerChar(c: char): (l: char)
    ensures !('A' <= l <= 'Z')
  {
    if 'A' <= c <= 'Z' then (c as int + 32) as char else c
  }

  function ToLower(s: string): (l: string)
    ensures |l| == |s| && forall i | 0 <= i < |s| :: l[i] == LowerChar(s[i])
  {
    seq(|s|, i requires 0 <= i < |s| => LowerChar(s[i]))
  }

  predicate IsSpace(c: char) {
    c == ' ' || '\t' <= c <= '\r'
  }

  function TrimLeft(s: string): (t: string)
    ensures t == [] || !IsSpace(t[0])
  {
    if s != [] && IsSpace(s[0]) then TrimLeft(s[1..]) else s
  }

  function TrimRight(s: string): (t: string)
    ensures t == [] || !IsSpace(t[|t| - 1])
    ensures t <= s
  {
    if s != [] && IsSpace(s[|s| - 1]) then TrimRight(s[..|s| - 1]) else s
  }

  function TrimSpace(s: string): string {
    TrimRight(TrimLeft(s))
  }

  predicate Blank(s: string, from: nat, end: nat)
    requires from <= end <= |s|
  {
    forall k | from <= k < end :: s[k] == ' ' || 9 <= s[k] as int <= 13
  }

  lemma {:induction false} TrimLeftAt(s: string) returns (i: nat)
    ensures i <= |s| && TrimLeft(s) == s[i..] && Blank(s, 0, i)
  {
    if s != [] && IsSpace(s[0]) {
      var j := TrimLeftAt(s[1..]);
      i := j + 1;
      assert forall k | 1 <= k < i :: s[k] == s[1..][k - 1];
    } else {
      i := 0;
    }
  }

  lemma {:induction false} TrimRightBlank(s: string)
    ensures Blank(s, |TrimRight(s)|, |s|)
  {
    if s != [] && IsSpace(s[|s| - 1]) {
      TrimRightBlank(s[..|s| - 1]);
      assert forall k | 0 <= k < |s| - 1 :: s[k] == s[..|s| - 1][k];
    }
  }

  /** Trimming takes the blanks at both ends and nothing else. */
  lemma TrimMeaning(s: string) returns (i: nat, j: nat)
    ensures i <= j <= |s| && TrimSpace(s) == s[i..j] && Blank(s, 0, i) && Blank(s, j, |s|)
    ensures i < j ==> !Blank(s, i, i + 1) && !Blank(s, j - 1, j)
  {
    i := TrimLeftAt(s);
    var t := s[i..];
    j := i + |TrimSpace(s)|;
    TrimRightBlank(t);
    assert TrimSpace(s) == t[..j - i];
    forall k | j <= k < |s| ensures s[k] == t[k - i] {
    }
    if i < j {
      assert s[i] == TrimLeft(s)[0] && s[j - 1] == TrimSpace(s)[j - i - 1];
    }
  }

  /** Lower-casing changes the letters A to Z only, to the letters 32 places on. */
  lemma LowerMeaning(s: string, i: nat)
    requires i < |s|
    ensures ToLower(s)[i] as int == s[i] as int + if 65 <= s[i] as int <= 90 then 32 else 0
  {
  }

  lemma TrimIdle(s: string)
    requires s == [] || (!IsSpace(s[0]) && !IsSpace(s[|s| - 1]))
    ensures TrimSpace(s) == s
  {
  }

  /** Trimming and lower-casing once is enough. */
  lemma CleanIdempotent(s: string)
    ensures var t := ToLower(TrimSpace(s)); ToLower(TrimSpace(t)) == t && ToLower(t) == t
  {
    var u := TrimSpace(s);
    var t := ToLower(u);
    assert u != [] ==> u[0] == TrimLeft(s)[0];
    assert forall c :: IsSpace(LowerChar(c)) <==> IsSpace(c);
    TrimIdle(t);
    assert ToLower(t) == t;
  }

  // ---------------------------------------------------------------- taking strings apart

  lemma CancelPrefix(p: string, x: string, y: string)
    requires p + x == p + y
    ensures x == y
  {
    assert (p + x)[|p|..] == x && (p + y)[|p|..] == y;
  }

  /** The first c ends the part that has none. */
  lemma SplitFirst(a: string, b: string, c: char, x: string, y: string)
    requires c !in a && c !in b && a + ([c] + x) == b + ([c] + y)
    ensures a == b && x == y
  {
    var s := a + ([c] + x);
    assert s[|a|] == c && s[|b|] == c;
    forall i | 0 <= i < |a| ensures s[i] != c {
      assert s[i] == a[i];
    }
    forall i | 0 <= i < |b| ensures s[i] != c {
      assert s[i] == b[i];
    }
    assert a == s[..|a|] && b == s[..|b|] && x == s[|a| + 1..] && y == s[|b| + 1..];
  }

  /** The last c starts the part that has none. */
  lemma SplitLast(a: string, b: string, c: char, x: string, y: string)
    requires c !in x && c !in y && a + ([c] + x) == b + ([c] + y)
    ensures a == b && x == y
  {
    var s := a + ([c] + x);
    assert s[|a|] == c && s[|b|] == c;
    forall i | |a| < i < |s| ensures s[i] != c {
      assert s[i] == x[i - |a| - 1];
    }
    forall i | |b| < i < |s| ensures s[i] != c {
      assert s[i] == y[i - |b| - 1];
    }
    assert a == s[..|a|] && b == s[..|b|] && x == s[|a| + 1..] && y == s[|b| + 1..];
  }

  lemma SplitLength(a: string, b: string, x: string, y: string)
    requires |x| == |y| && a + x == b + y
    ensures a == b && x == y
  {
    var s := a + x;
    assert a == s[..|a|] && b == s[..|b|] && x == s[|a|..] && y == s[|b|..];
  }
}
