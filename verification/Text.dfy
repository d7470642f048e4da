/** Strings as the source handles them: trimming, prefixes, and fields joined with a separator. */
module Text {

  predicate IsSpace(c: char)
  {
    c == ' ' || c == '\t' || c == '\n' || c == '\U{0B}' || c == '\U{0C}' || c == '\r'
  }

  /** strings.TrimSpace, for ASCII white space. */
  function TrimSpace(s: string): (r: string)
    ensures r != "" ==> !IsSpace(r[0]) && !IsSpace(r[|r| - 1])
    ensures r == "" <==> forall c :: c in s ==> IsSpace(c)
    ensures forall c :: c in r ==> c in s
    decreases |s|
  {
    if s == "" then s
    else if IsSpace(s[0]) then TrimSpace(s[1..])
    else if IsSpace(s[|s| - 1]) then TrimSpace(s[..|s| - 1])
    else s
  }

  /** What is left is what was there but for white space before i and from j on. */
  lemma {:induction false} TrimSpaceIsTheMiddle(s: string) returns (i: nat, j: nat)
    ensures Middle(s, TrimSpace(s), i, j)
    decreases |s|
  {
    if s != "" && IsSpace(s[0]) {
      i, j := TrimSpaceIsTheMiddle(s[1..]);
      SpaceInFront(s, TrimSpace(s[1..]), i, j);
      i, j := i + 1, j + 1;
    } else if s != "" && IsSpace(s[|s| - 1]) {
      i, j := TrimSpaceIsTheMiddle(s[..|s| - 1]);
      SpaceBehind(s, TrimSpace(s[..|s| - 1]), i, j);
    } else {
      i, j := 0, |s|;
    }
  }

  predicate Middle(s: string, t: string, i: nat, j: nat)
  {
    i <= j <= |s| && t == s[i..j] && AllSpace(s[..i]) && AllSpace(s[j..])
  }

  lemma SpaceInFront(s: string, t: string, i: nat, j: nat)
    requires s != "" && IsSpace(s[0]) && Middle(s[1..], t, i, j)
    ensures Middle(s, t, i + 1, j + 1)
  {
    var rest := s[1..];
    assert forall k :: 0 <= k < |rest| ==> rest[k] == s[k + 1];
    assert forall k :: 0 <= k < i ==> rest[..i][k] == s[k + 1];
    assert forall k :: 0 <= k < |rest| - j ==> rest[j..][k] == s[j + 1..][k];
    assert t == s[i + 1..j + 1];
    assert s[..i + 1] == [s[0]] + rest[..i];
  }

  lemma SpaceBehind(s: string, t: string, i: nat, j: nat)
    requires s != "" && IsSpace(s[|s| - 1]) && Middle(s[..|s| - 1], t, i, j)
    ensures Middle(s, t, i, j)
  {
    var front := s[..|s| - 1];
    assert front[i..j] == s[i..j] && front[..i] == s[..i];
    assert s[j..] == front[j..] + [s[|s| - 1]];
  }

  predicate AllSpace(s: string)
  {
    forall i :: 0 <= i < |s| ==> IsSpace(s[i])
  }

  /** strings.TrimRight of one character. */
  function TrimRight(s: string, c: char): (r: string)
    ensures r <= s && forall i :: |r| <= i < |s| ==> s[i] == c
    ensures r != "" ==> r[|r| - 1] != c
  {
    if s != "" && s[|s| - 1] == c then TrimRight(s[..|s| - 1], c) else s
  }

  /** strings.Trim of one character, at both ends. */
  function Trim(s: string, c: char): (r: string)
    ensures r != "" ==> r[0] != c && r[|r| - 1] != c
    ensures forall d :: d in r ==> d in s
  {
    if s != "" && s[0] == c then Trim(s[1..], c) else TrimRight(s, c)
  }

  lemma {:induction false} TrimIsTheMiddle(s: string, c: char) returns (before: string, after: string)
    ensures s == before + Trim(s, c) + after && (forall d :: d in before ==> d == c) && (forall d :: d in after ==> d == c)
  {
    if s != "" && s[0] == c {
      before, after := TrimIsTheMiddle(s[1..], c);
      assert s == [c] + s[1..];
      before := [c] + before;
      assert s == before + Trim(s, c) + after;
    } else {
      before, after := "", s[|TrimRight(s, c)|..];
    }
  }

  /** strings.HasPrefix. */
  predicate HasPrefix(s: string, prefix: string)
  {
    prefix <= s
  }

  predicate Without(s: string, c: char)
  {
    c !in s
  }

  /** A field that does not hold the separator can be read back from in front of it. */
  lemma SplitAtSeparator(a: string, a': string, b: string, b': string, c: char)
    requires Without(a, c) && Without(a', c)
    requires a + [c] + b == a' + [c] + b'
    ensures a == a' && b == b'
  {
    var s := a + [c] + b;
    assert s[|a|] == c && s == a' + [c] + b';
    assert s[|a'|] == c;
    assert |a| == |a'|;
    assert a == s[..|a|] && a' == s[..|a'|];
    assert b == s[|a| + 1..] && b' == s[|a'| + 1..];
  }

  // ----- order

  /** strings.Compare of a with b is less than zero. */
  predicate Less(a: string, b: string)
  {
    if b == "" then false
    else if a == "" then true
    else if a[0] != b[0] then a[0] < b[0]
    else Less(a[1..], b[1..])
  }

  lemma {:induction false} LessIsTransitive(a: string, b: string, c: string)
    requires Less(a, b) && Less(b, c)
    ensures Less(a, c)
  {
    if a != "" && a[0] == b[0] == c[0] {
      LessIsTransitive(a[1..], b[1..], c[1..]);
    }
  }

  lemma {:induction false} LessIsTotal(a: string, b: string)
    ensures a == b || Less(a, b) || Less(b, a)
    ensures !(Less(a, b) && Less(b, a)) && !Less(a, a)
  {
    if a != "" && b != "" {
      LessIsTotal(a[1..], b[1..]);
      LessIsTotal(a[1..], a[1..]);
      assert a == [a[0]] + a[1..] && b == [b[0]] + b[1..];
    } else if a != "" {
      LessIsTotal(a[1..], a[1..]);
    }
  }

  /** The order is that of dictionaries: by the first character that differs, and a beginning before what it begins. */
  lemma {:induction false} LessIsByTheFirstDifference(a: string, b: string)
    ensures Less(a, b) <==> exists k :: Differ(a, b, k)
  {
    if a != "" && b != "" && a[0] == b[0] {
      LessIsByTheFirstDifference(a[1..], b[1..]);
      assert a == [a[0]] + a[1..] && b == [b[0]] + b[1..];
      if k: nat :| Differ(a[1..], b[1..], k) {
        assert a[..k + 1] == [a[0]] + a[1..][..k] && b[..k + 1] == [b[0]] + b[1..][..k];
        assert Differ(a, b, k + 1);
      }
      if k: nat :| Differ(a, b, k) {
        assert k > 0;
        assert a[1..][..k - 1] == a[..k][1..] && b[1..][..k - 1] == b[..k][1..];
        assert Differ(a[1..], b[1..], k - 1);
      }
    } else if b != "" {
      if a == "" || a[0] < b[0] {
        assert Differ(a, b, 0);
      }
      if k: nat :| Differ(a, b, k) {
        StartAlike(a, b, k);
      }
    }
  }

  lemma StartAlike(a: string, b: string, k: nat)
    ensures Differ(a, b, k) && k > 0 ==> a != "" && b != "" && a[0] == b[0]
  {
    if Differ(a, b, k) && k > 0 {
      assert a[..k][0] == a[0] && b[..k][0] == b[0];
    }
  }

  /** Two strings agree up to a place where one ends or is less than the other. */
  ghost predicate Differ(a: string, b: string, k: nat)
  {
    k <= |a| && k < |b| && a[..k] == b[..k] && (k == |a| || a[k] < b[k])
  }
}
