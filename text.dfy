/** String helpers shared by the whole model: ASCII case folding and whitespace
    trimming (standing in for Python's str.lower() and str.strip()), substring
    search (Python's `in` on strings), str.replace(w, ""), str.split(c) and
    str.join, and the code-point order that Python's sorted() uses on strings. */
module Text {

  /** ASCII characters for which Python's str.isspace() holds: space, \t \n \v \f \r
      and the four separators \x1c..\x1f. Also what `\s` matches in a str pattern. */
  predicate IsSpace(c: char) {
    c == ' ' || 9 <= c as int <= 13 || 28 <= c as int <= 31
  }

  predicate IsUpper(c: char) {
    'A' <= c <= 'Z'
  }

  function LowerChar(c: char): (d: char)
    ensures !IsUpper(d)
    ensures IsUpper(c) ==> d as int == c as int + 32
    ensures !IsUpper(c) ==> d == c
  {
    if IsUpper(c) then (c as int + 32) as char else c
  }

  /** str.lower(), restricted to ASCII letters. */
  function Lower(s: string): (r: string)
    ensures |r| == |s|
    ensures forall i :: 0 <= i < |s| ==> r[i] == LowerChar(s[i])
  {
    seq(|s|, i requires 0 <= i < |s| => LowerChar(s[i]))
  }

  lemma LowerIdempotent(s: string)
    ensures Lower(Lower(s)) == Lower(s)
  {
  }

  /** A string without ASCII capitals is its own lower-case form. */
  lemma LowerOfLowerCase(s: string)
    requires forall c :: c in s ==> !IsUpper(c)
    ensures Lower(s) == s
  {
    forall i | 0 <= i < |s| ensures Lower(s)[i] == s[i] {
      assert s[i] in s;
    }
  }

  /** Lower-casing works piece by piece. */
  lemma LowerAppend(a: string, b: string)
    ensures Lower(a + b) == Lower(a) + Lower(b)
  {
    assert forall i :: 0 <= i < |a + b| ==> (a + b)[i] == if i < |a| then a[i] else b[i - |a|];
  }

  function TrimStart(s: string): (r: string)
    ensures |r| <= |s| && r == s[|s| - |r|..]
    ensures r == [] || !IsSpace(r[0])
    ensures forall i :: 0 <= i < |s| - |r| ==> IsSpace(s[i])
  {
    if s != [] && IsSpace(s[0]) then TrimStart(s[1..]) else s
  }

  function TrimEnd(s: string): (r: string)
    ensures |r| <= |s| && r == s[..|r|]
    ensures r == [] || !IsSpace(r[|r| - 1])
    ensures forall i :: |r| <= i < |s| ==> IsSpace(s[i])
  {
    if s != [] && IsSpace(s[|s| - 1]) then TrimEnd(s[..|s| - 1]) else s
  }

  lemma TrimStartSpace(c: char, s: string)
    requires IsSpace(c)
    ensures TrimStart([c] + s) == TrimStart(s)
  {
    assert ([c] + s)[1..] == s;
  }

  /** str.strip() with no argument. */
  function Strip(s: string): string {
    TrimEnd(TrimStart(s))
  }

  predicate AllSpace(s: string) {
    forall i :: 0 <= i < |s| ==> IsSpace(s[i])
  }

  /** Text that starts and ends visibly is its own strip. */
  lemma StripVisible(s: string)
    requires s != [] && !IsSpace(s[0]) && !IsSpace(s[|s| - 1])
    ensures Strip(s) == s
  {
  }

  /** One leading space goes, visible text stays. */
  lemma StripAfterSpace(c: char, w: string)
    requires IsSpace(c) && w != [] && !IsSpace(w[0]) && !IsSpace(w[|w| - 1])
    ensures Strip([c] + w) == w
  {
    TrimStartSpace(c, w);
    StripVisible(w);
  }

  /** r is s with the whitespace runs s[..i] and s[j..] removed. */
  ghost predicate StripsTo(s: string, r: string, i: nat, j: nat) {
    i <= j <= |s| && r == s[i..j] && AllSpace(s[..i]) && AllSpace(s[j..])
  }

  /** strip() removes exactly a run of leading and a run of trailing whitespace:
      s is (spaces) + Strip(s) + (spaces), and Strip(s) neither starts nor ends with
      whitespace. */
  lemma StripShape(s: string)
    ensures exists i, j :: StripsTo(s, Strip(s), i, j)
    ensures Strip(s) == [] || (!IsSpace(Strip(s)[0]) && !IsSpace(Strip(s)[|Strip(s)| - 1]))
  {
    var t := TrimStart(s);
    var i := |s| - |t|;
    var m := |TrimEnd(t)|;
    var j := i + m;
    TrimStartSkipsSpace(s);
    TrimEndSkipsSpace(t);
    assert t == s[i..];
    assert s[j..] == t[m..];
    assert t[..m] == s[i..j];
    assert StripsTo(s, Strip(s), i, j);
    if Strip(s) != [] {
      assert Strip(s)[0] == t[0];
    }
  }

  lemma TrimStartSkipsSpace(s: string)
    ensures AllSpace(s[..|s| - |TrimStart(s)|])
  {
    var i := |s| - |TrimStart(s)|;
    forall k | 0 <= k < i ensures IsSpace(s[..i][k]) {
      assert s[..i][k] == s[k];
    }
  }

  lemma TrimEndSkipsSpace(t: string)
    ensures AllSpace(t[|TrimEnd(t)|..])
  {
    var m := |TrimEnd(t)|;
    forall k | 0 <= k < |t| - m ensures IsSpace(t[m..][k]) {
      assert t[m..][k] == t[m + k];
    }
  }


  /** strip() gives "" exactly when every character is whitespace. */
  lemma StripEmptyIffAllSpace(s: string)
    ensures Strip(s) == [] <==> AllSpace(s)
  {
    StripShape(s);
    var i: nat, j: nat :| StripsTo(s, Strip(s), i, j);
    if Strip(s) == [] {
      assert i == j;
      forall k | 0 <= k < |s| ensures IsSpace(s[k]) {
        if k < i {
          assert s[..i][k] == s[k];
        } else {
          assert s[j..][k - j] == s[k];
        }
      }
    } else {
      assert s[i] == Strip(s)[0];
    }
  }

  lemma StripIdempotent(s: string)
    ensures Strip(Strip(s)) == Strip(s)
  {
    StripShape(s);
    var r := Strip(s);
    if r != [] {
      assert TrimStart(r) == r;
      assert TrimEnd(r) == r;
    }
  }

  /** A string that neither starts nor ends with whitespace is unchanged by strip(). */
  lemma StripOfTrimmed(s: string)
    requires s == [] || (!IsSpace(s[0]) && !IsSpace(s[|s| - 1]))
    ensures Strip(s) == s
  {
  }

  /** w occurs in s starting at index i. */
  predicate MatchesAt(s: string, w: string, i: nat) {
    i + |w| <= |s| && s[i..i + |w|] == w
  }

  predicate StartsWith(s: string, w: string) {
    |w| <= |s| && s[..|w|] == w
  }

  predicate EndsWith(s: string, w: string) {
    |w| <= |s| && s[|s| - |w|..] == w
  }

  /** A prefix of a prefix of r is a prefix of r. */
  lemma StartsWithTrans(r: string, s: string, p: string)
    requires StartsWith(r, s) && StartsWith(s, p)
    ensures StartsWith(r, p)
  {
    assert r[..|p|] == r[..|s|][..|p|];
  }

  /** Python's `w in s` for strings: w is a prefix of s or occurs in its tail. */
  predicate Contains(s: string, w: string)
    decreases |s|
  {
    StartsWith(s, w) || (s != [] && Contains(s[1..], w))
  }

  /** An occurrence at any index makes w part of s. */
  lemma {:induction false} ContainsAt(s: string, w: string, i: nat)
    requires MatchesAt(s, w, i)
    ensures Contains(s, w)
    decreases i
  {
    if i > 0 {
      assert s[1..][i - 1..i - 1 + |w|] == s[i..i + |w|];
      ContainsAt(s[1..], w, i - 1);
    }
  }

  /** Every occurrence of w in s is found at some index. */
  lemma {:induction false} ContainsWitness(s: string, w: string)
    requires Contains(s, w)
    ensures exists i :: 0 <= i <= |s| - |w| && MatchesAt(s, w, i)
    decreases |s|
  {
    if StartsWith(s, w) {
      assert MatchesAt(s, w, 0);
    } else {
      ContainsWitness(s[1..], w);
      var i :| 0 <= i <= |s[1..]| - |w| && MatchesAt(s[1..], w, i);
      assert s[i + 1..i + 1 + |w|] == s[1..][i..i + |w|];
      assert MatchesAt(s, w, i + 1);
    }
  }

  lemma ContainsMiddle(a: string, w: string, b: string)
    ensures Contains(a + w + b, w)
  {
    assert (a + w + b)[|a|..|a| + |w|] == w;
    ContainsAt(a + w + b, w, |a|);
  }

  /** A prefix equal to w holds each of w's characters. */
  lemma PrefixHolds(s: string, w: string, c: char)
    requires c in w
    ensures StartsWith(s, w) ==> c in s
  {
    if StartsWith(s, w) {
      var k :| 0 <= k < |w| && w[k] == c;
      assert s[..|w|][k] == c;
      assert s[k] in s;
    }
  }

  /** A word with a character that s lacks does not occur in s. This is how the
      concrete dispatch examples prove that a keyword is absent. */
  lemma {:induction false} NotContainsByAbsent(s: string, w: string, c: char)
    requires c in w && c !in s
    ensures !Contains(s, w)
    decreases |s|
  {
    PrefixHolds(s, w, c);
    if s != [] {
      assert forall x :: x in s[1..] ==> x in s;
      NotContainsByAbsent(s[1..], w, c);
    }
  }

  /** Every character of s is drawn from the alphabet. */
  predicate Within(s: string, alphabet: set<char>) {
    forall i :: 0 <= i < |s| ==> s[i] in alphabet
  }

  /** A word with a character outside the alphabet of s does not occur in s. */
  lemma NotContainsOutside(s: string, alphabet: set<char>, w: string, c: char)
    requires Within(s, alphabet) && c in w && c !in alphabet
    ensures !Contains(s, w)
  {
    NotContainsByAbsent(s, w, c);
  }

  /** A word longer than s does not occur in it. */
  lemma {:induction false} NotContainsShort(s: string, w: string)
    requires |s| < |w|
    ensures !Contains(s, w)
    decreases |s|
  {
    if s != [] {
      NotContainsShort(s[1..], w);
    }
  }

  /** A prefix of a + [c] + b that is w lies within a, or else w holds c. */
  lemma StraddlingPrefix(a: string, c: char, b: string, w: string)
    ensures StartsWith(a + [c] + b, w) ==> StartsWith(a, w) || c in w
  {
    var s := a + [c] + b;
    if StartsWith(s, w) {
      if |w| <= |a| {
        assert s[..|w|] == a[..|w|];
      } else {
        assert s[..|w|][|a|] == c;
        assert w[|a|] in w;
      }
    }
  }

  /** A match cannot straddle a character that does not occur in w. */
  lemma {:induction false} NotContainsSplit(a: string, c: char, b: string, w: string)
    requires c !in w && !Contains(a, w) && !Contains(b, w)
    ensures !Contains(a + [c] + b, w)
    decreases |a|
  {
    var s := a + [c] + b;
    StraddlingPrefix(a, c, b, w);
    if a == [] {
      assert s[1..] == b;
    } else {
      assert s[1..] == a[1..] + [c] + b;
      NotContainsSplit(a[1..], c, b, w);
    }
  }

  /** The index form of NotContainsSplit: no match runs across s[i] when w lacks
      that character. */
  lemma NotContainsAround(s: string, i: nat, w: string)
    requires i < |s| && s[i] !in w && !Contains(s[..i], w) && !Contains(s[i + 1..], w)
    ensures !Contains(s, w)
  {
    assert s == s[..i] + [s[i]] + s[i + 1..];
    NotContainsSplit(s[..i], s[i], s[i + 1..], w);
  }

  /** w does not occur in s when two characters it lacks cut s into pieces
      shorter than w. */
  lemma CutTwice(s: string, i: nat, j: nat, w: string)
    requires i < j < |s| && s[i] !in w && s[j] !in w
    requires i < |w| && j - i - 1 < |w| && |s| - j - 1 < |w|
    ensures !Contains(s, w)
  {
    var rest := s[i + 1..];
    assert rest[j - i - 1] == s[j];
    NotContainsShort(rest[..j - i - 1], w);
    NotContainsShort(rest[j - i..], w);
    NotContainsAround(rest, j - i - 1, w);
    NotContainsShort(s[..i], w);
    NotContainsAround(s, i, w);
  }

  /** w does not occur in s when s[i] is a character w lacks and each side of it
      lacks some character (m1, m2) of w. */
  lemma CutOnce(s: string, i: nat, w: string, m1: char, m2: char)
    requires i < |s| && s[i] !in w
    requires m1 in w && m1 !in s[..i] && m2 in w && m2 !in s[i + 1..]
    ensures !Contains(s, w)
  {
    NotContainsByAbsent(s[..i], w, m1);
    NotContainsByAbsent(s[i + 1..], w, m2);
    NotContainsAround(s, i, w);
  }

  /** str.replace(w, ""): every non-overlapping occurrence of w, scanning left to
      right, is deleted. */
  function RemoveAll(s: string, w: string): (r: string)
    requires |w| > 0
    ensures |r| <= |s|
    decreases |s|
  {
    if |s| < |w| then s
    else if s[..|w|] == w then RemoveAll(s[|w|..], w)
    else [s[0]] + RemoveAll(s[1..], w)
  }

  /** Deleting a word that does not occur changes nothing. */
  lemma {:induction false} RemoveAllAbsent(s: string, w: string)
    requires |w| > 0 && !Contains(s, w)
    ensures RemoveAll(s, w) == s
    decreases |s|
  {
    if |s| >= |w| {
      RemoveAllAbsent(s[1..], w);
      assert s == [s[0]] + s[1..];
    }
  }

  /** A leading occurrence of w is deleted and the scan resumes after it. */
  lemma RemoveAllPrefix(w: string, s: string)
    requires |w| > 0
    ensures RemoveAll(w + s, w) == RemoveAll(s, w)
  {
    assert (w + s)[..|w|] == w;
    assert (w + s)[|w|..] == s;
  }

  /** str.split(c): the pieces between occurrences of c, always at least one. */
  function Split(s: string, c: char): (parts: seq<string>)
    ensures |parts| >= 1
    decreases |s|
  {
    if s == [] then [""]
    else if s[0] == c then [""] + Split(s[1..], c)
    else
      var rest := Split(s[1..], c);
      [[s[0]] + rest[0]] + rest[1..]
  }

  /** sep.join(parts). */
  function Join(parts: seq<string>, sep: string): string {
    if parts == [] then ""
    else if |parts| == 1 then parts[0]
    else parts[0] + sep + Join(parts[1..], sep)
  }

  /** A piece without c is not split. */
  lemma {:induction false} SplitNoSeparator(a: string, c: char)
    requires c !in a
    ensures Split(a, c) == [a]
  {
    if a != [] {
      SplitNoSeparator(a[1..], c);
      assert [a[0]] + a[1..] == a;
    }
  }

  /** Splitting a + [c] + b at c yields a, then the pieces of b. */
  lemma {:induction false} SplitAtFirst(a: string, c: char, b: string)
    requires c !in a
    ensures Split(a + [c] + b, c) == [a] + Split(b, c)
    decreases |a|
  {
    if a == [] {
      assert a + [c] + b == [c] + b;
      assert ([c] + b)[1..] == b;
    } else {
      var s := a + [c] + b;
      assert s[1..] == a[1..] + [c] + b;
      SplitAtFirst(a[1..], c, b);
      assert [a[0]] + a[1..] == a;
    }
  }

  /** Joining the pieces of split(c) with c gives back the string, and no piece
      contains c. */
  lemma {:induction false} SplitJoin(s: string, c: char)
    ensures Join(Split(s, c), [c]) == s
    ensures forall k :: 0 <= k < |Split(s, c)| ==> c !in Split(s, c)[k]
    decreases |s|
  {
    if s != [] {
      SplitJoin(s[1..], c);
      var rest := Split(s[1..], c);
      if s[0] == c {
        assert Split(s, c) == [""] + rest;
        assert Join([""] + rest, [c]) == "" + [c] + Join(rest, [c]);
      } else {
        var parts := Split(s, c);
        assert parts == [[s[0]] + rest[0]] + rest[1..];
        if |rest| == 1 {
          assert Join(parts, [c]) == [s[0]] + rest[0];
          assert Join(rest, [c]) == rest[0];
        } else {
          assert rest == [rest[0]] + rest[1..];
          assert Join(rest, [c]) == rest[0] + [c] + Join(rest[1..], [c]);
          assert Join(parts, [c]) == [s[0]] + rest[0] + [c] + Join(rest[1..], [c]);
        }
        assert s == [s[0]] + s[1..];
        forall k | 0 <= k < |parts| ensures c !in parts[k] {
          if k == 0 {
            assert c !in rest[0];
          } else {
            assert parts[k] == rest[k];
          }
        }
      }
    }
  }

  // ----- The order sorted() uses on str: lexicographic by code point -----

  predicate Less(a: string, b: string) {
    if a == [] then b != []
    else if b == [] then false
    else if a[0] != b[0] then a[0] < b[0]
    else Less(a[1..], b[1..])
  }

  lemma {:induction false} LessIrreflexive(a: string)
    ensures !Less(a, a)
  {
    if a != [] {
      LessIrreflexive(a[1..]);
    }
  }

  lemma {:induction false} LessTransitive(a: string, b: string, c: string)
    requires Less(a, b) && Less(b, c)
    ensures Less(a, c)
  {
    if a != [] && b != [] && c != [] && a[0] == b[0] && b[0] == c[0] {
      LessTransitive(a[1..], b[1..], c[1..]);
    }
  }

  lemma {:induction false} LessTotal(a: string, b: string)
    ensures a == b || Less(a, b) || Less(b, a)
  {
    if a != [] && b != [] && a[0] == b[0] {
      LessTotal(a[1..], b[1..]);
      if a[1..] == b[1..] {
        assert a == [a[0]] + a[1..] && b == [b[0]] + b[1..];
      }
    }
  }

  lemma {:induction false} LessAsymmetric(a: string, b: string)
    requires Less(a, b)
    ensures !Less(b, a)
  {
    if a != [] && b != [] && a[0] == b[0] {
      LessAsymmetric(a[1..], b[1..]);
    }
  }

  /** Non-decreasing, as sorted() leaves a list that may hold duplicates. */
  predicate Sorted(xs: seq<string>) {
    forall i, j :: 0 <= i < j < |xs| ==> !Less(xs[j], xs[i])
  }

  /** Increasing, as sorted() leaves the elements of a set. */
  predicate StrictlySorted(xs: seq<string>) {
    forall i, j :: 0 <= i < j < |xs| ==> Less(xs[i], xs[j])
  }

  /** Insert x into a sorted list before the first element not below it. */
  function Insert(x: string, xs: seq<string>): (r: seq<string>)
    ensures multiset(r) == multiset(xs) + multiset{x}
    ensures Sorted(xs) ==> Sorted(r)
    ensures StrictlySorted(xs) && x !in xs ==> StrictlySorted(r)
  {
    if xs == [] || !Less(xs[0], x) then
      InsertFrontKeepsOrder(x, xs);
      [x] + xs
    else
      var rest := Insert(x, xs[1..]);
      assert xs == [xs[0]] + xs[1..];
      InsertBehindKeepsOrder(x, xs, rest);
      [xs[0]] + rest
  }

  lemma InsertFrontKeepsOrder(x: string, xs: seq<string>)
    requires xs == [] || !Less(xs[0], x)
    ensures Sorted(xs) ==> Sorted([x] + xs)
    ensures StrictlySorted(xs) && x !in xs ==> StrictlySorted([x] + xs)
  {
    var r := [x] + xs;
    if Sorted(xs) {
      forall i, j | 0 <= i < j < |r| ensures !Less(r[j], r[i]) {
        if i == 0 {
          if Less(xs[j - 1], x) {
            if j - 1 > 0 {
              LessTotal(xs[0], xs[j - 1]);
              if Less(xs[0], xs[j - 1]) {
                LessTransitive(xs[0], xs[j - 1], x);
              }
            }
          }
        }
      }
    }
    if StrictlySorted(xs) && x !in xs {
      forall i, j | 0 <= i < j < |r| ensures Less(r[i], r[j]) {
        if i == 0 {
          LessTotal(xs[0], x);
          assert xs[0] != x;
          assert Less(x, xs[0]);
          if j - 1 > 0 {
            LessTransitive(x, xs[0], xs[j - 1]);
          }
        }
      }
    }
  }

  lemma InsertBehindKeepsOrder(x: string, xs: seq<string>, rest: seq<string>)
    requires xs != [] && Less(xs[0], x)
    requires multiset(rest) == multiset(xs[1..]) + multiset{x}
    requires Sorted(xs[1..]) ==> Sorted(rest)
    requires StrictlySorted(xs[1..]) && x !in xs[1..] ==> StrictlySorted(rest)
    ensures Sorted(xs) ==> Sorted([xs[0]] + rest)
    ensures StrictlySorted(xs) && x !in xs ==> StrictlySorted([xs[0]] + rest)
  {
    RestElements(x, xs, rest);
    if Sorted(xs) {
      InsertBehindSorted(x, xs, rest);
    }
    if StrictlySorted(xs) && x !in xs {
      InsertBehindStrictlySorted(x, xs, rest);
    }
  }

  /** Every element of rest is x or an element of xs[1..]. */
  lemma RestElements(x: string, xs: seq<string>, rest: seq<string>)
    requires xs != [] && multiset(rest) == multiset(xs[1..]) + multiset{x}
    ensures forall k :: 0 <= k < |rest| ==> rest[k] == x || rest[k] in xs[1..]
  {
    forall k | 0 <= k < |rest| ensures rest[k] == x || rest[k] in xs[1..] {
      assert rest[k] in multiset(rest);
    }
  }

  lemma InsertBehindSorted(x: string, xs: seq<string>, rest: seq<string>)
    requires xs != [] && Less(xs[0], x) && Sorted(xs) && Sorted(rest)
    requires forall k :: 0 <= k < |rest| ==> rest[k] == x || rest[k] in xs[1..]
    ensures Sorted([xs[0]] + rest)
  {
    var r := [xs[0]] + rest;
    forall i, j | 0 <= i < j < |r| ensures !Less(r[j], r[i]) {
      if i == 0 {
        var y := rest[j - 1];
        if y == x {
          LessAsymmetric(xs[0], x);
        } else {
          var m :| 0 <= m < |xs[1..]| && xs[1..][m] == y;
          assert xs[m + 1] == y;
        }
      }
    }
  }

  lemma InsertBehindStrictlySorted(x: string, xs: seq<string>, rest: seq<string>)
    requires xs != [] && Less(xs[0], x) && StrictlySorted(xs) && StrictlySorted(rest)
    requires forall k :: 0 <= k < |rest| ==> rest[k] == x || rest[k] in xs[1..]
    ensures StrictlySorted([xs[0]] + rest)
  {
    var r := [xs[0]] + rest;
    forall i, j | 0 <= i < j < |r| ensures Less(r[i], r[j]) {
      if i == 0 {
        var y := rest[j - 1];
        if y != x {
          var m :| 0 <= m < |xs[1..]| && xs[1..][m] == y;
          assert xs[m + 1] == y;
        }
      }
    }
  }


  /** sorted() on a list: an ordered permutation of xs (duplicates kept). */
  function Sort(xs: seq<string>): (r: seq<string>)
    ensures Sorted(r) && multiset(r) == multiset(xs)
  {
    if xs == [] then []
    else
      assert xs == [xs[0]] + xs[1..];
      Insert(xs[0], Sort(xs[1..]))
  }

  /** sorted() on a set: its elements in increasing order, each once. */
  method SortedMembers(s: set<string>) returns (r: seq<string>)
    ensures StrictlySorted(r)
    ensures forall x :: x in r <==> x in s
  {
    r := [];
    var rest := s;
    while rest != {}
      invariant StrictlySorted(r)
      invariant rest <= s
      invariant forall x :: x in r <==> x in s && x !in rest
      decreases rest
    {
      var x :| x in rest;
      var next := Insert(x, r);
      forall y ensures y in next <==> y in r || y == x {
        assert y in next <==> y in multiset(next);
      }
      r := next;
      rest := rest - {x};
    }
  }

  /** The increasing enumeration of a set is unique, so the listing sorted(set)
      produces depends on the set alone. */
  lemma {:induction false} StrictlySortedUnique(a: seq<string>, b: seq<string>)
    requires StrictlySorted(a) && StrictlySorted(b)
    requires forall x :: x in a <==> x in b
    ensures a == b
    decreases |a|
  {
    if a != [] { assert a[0] in a; }
    if b != [] { assert b[0] in b; }
    if a != [] && b != [] {
      // the heads are both the least element
      assert a[0] in b;
      assert b[0] in a;
      var i :| 0 <= i < |b| && b[i] == a[0];
      var j :| 0 <= j < |a| && a[j] == b[0];
      if a[0] != b[0] {
        assert i > 0 && j > 0;
        assert Less(b[0], a[0]);
        assert Less(a[0], b[0]);
        LessAsymmetric(a[0], b[0]);
      }
      forall x ensures x in a[1..] <==> x in b[1..] {
        if x in a[1..] {
          var k :| 0 <= k < |a[1..]| && a[1..][k] == x;
          assert Less(a[0], a[k + 1]);
          if x == b[0] { LessIrreflexive(x); }
          assert x in b;
        }
        if x in b[1..] {
          var k :| 0 <= k < |b[1..]| && b[1..][k] == x;
          assert Less(b[0], b[k + 1]);
          if x == a[0] { LessIrreflexive(x); }
          assert x in a;
        }
      }
      StrictlySortedUnique(a[1..], b[1..]);
      assert a == [a[0]] + a[1..] && b == [b[0]] + b[1..];
    }
  }
}
