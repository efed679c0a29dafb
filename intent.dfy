/** The keyword dispatch both query handlers share: the query is lower-cased and
    trimmed, then an ordered table of (operation, trigger words) rules is tested
    and the first rule with any trigger word occurring in the query wins. */
module Intent {
  import opened Text

  /** `query.lower().strip()`. */
  function Normalize(query: string): string {
    Strip(Lower(query))
  }

  /** `any(keyword in q for keyword in words)`. */
  predicate Mentions(q: string, words: seq<string>) {
    exists k :: k in words && Contains(q, k)
  }

  /** One row of a dispatch table. */
  datatype Rule<T> = Rule(tag: T, keywords: seq<string>)

  /** Rule k is the one an if/elif chain over the table takes: it fires and no
      earlier rule does. */
  ghost predicate Selects<T>(rules: seq<Rule<T>>, q: string, k: nat) {
    k < |rules| && Mentions(q, rules[k].keywords)
    && forall j :: 0 <= j < k ==> !Mentions(q, rules[j].keywords)
  }

  /** The tag of the first rule that fires on q, or the default when none does. */
  function Dispatch<T>(rules: seq<Rule<T>>, q: string, default: T): T {
    if rules == [] then default
    else if Mentions(q, rules[0].keywords) then rules[0].tag
    else Dispatch(rules[1..], q, default)
  }

  /** Dispatch takes the selected rule, or the default exactly when no rule fires. */
  lemma {:induction false} DispatchSelects<T>(rules: seq<Rule<T>>, q: string, default: T)
    ensures (exists k: nat :: k < |rules| && Selects(rules, q, k) && Dispatch(rules, q, default) == rules[k].tag)
            || ((forall j :: 0 <= j < |rules| ==> !Mentions(q, rules[j].keywords))
                && Dispatch(rules, q, default) == default)
  {
    if rules == [] {
    } else if Mentions(q, rules[0].keywords) {
      assert Selects(rules, q, 0);
    } else {
      DispatchSelects(rules[1..], q, default);
      assert forall j :: 1 <= j < |rules| ==> rules[j] == rules[1..][j - 1];
      if exists k: nat :: k < |rules[1..]| && Selects(rules[1..], q, k) && Dispatch(rules[1..], q, default) == rules[1..][k].tag {
        var k: nat :| k < |rules[1..]| && Selects(rules[1..], q, k) && Dispatch(rules[1..], q, default) == rules[1..][k].tag;
        assert Selects(rules, q, k + 1);
      }
    }
  }

  /** First match wins: once rule i fires, only rules up to i can be taken, so a
      later rule whose tag no earlier rule shares is never the answer. */
  lemma {:induction false} EarlierRuleWins<T>(rules: seq<Rule<T>>, q: string, default: T, i: nat, j: nat)
    requires i < j < |rules| && Mentions(q, rules[i].keywords)
    requires forall m :: 0 <= m <= i ==> rules[m].tag != rules[j].tag
    ensures Dispatch(rules, q, default) != rules[j].tag
  {
    var r := Dispatch(rules, q, default);
    DispatchSelects(rules, q, default);
    if exists k: nat :: k < |rules| && Selects(rules, q, k) && r == rules[k].tag {
      var k: nat :| k < |rules| && Selects(rules, q, k) && r == rules[k].tag;
      assert k <= i;
    }
  }

  /** Normalizing twice is normalizing once, so a query and its normal form are
      dispatched alike. */
  lemma NormalizeIdempotent(query: string)
    ensures Normalize(Normalize(query)) == Normalize(query)
  {
    var l := Lower(query);
    var s := Strip(l);
    StripShape(l);
    var i: nat, j: nat :| StripsTo(l, s, i, j);
    forall c | c in s ensures !IsUpper(c) {
      var k :| 0 <= k < |s| && s[k] == c;
      assert s[k] == l[i + k];
    }
    LowerOfLowerCase(s);
    StripIdempotent(l);
  }

  /** A query whose characters all come from the alphabet mentions none of the
      words, when each word has a mark character outside the alphabet. */
  lemma MentionsNone(q: string, alphabet: set<char>, words: seq<string>, marks: seq<char>)
    requires Within(q, alphabet) && |marks| == |words|
    requires forall i :: 0 <= i < |words| ==> marks[i] in words[i] && marks[i] !in alphabet
    ensures !Mentions(q, words)
  {
    forall k | k in words ensures !Contains(q, k) {
      var i :| 0 <= i < |words| && words[i] == k;
      NotContainsOutside(q, alphabet, k, marks[i]);
    }
  }

  /** A query with an occurrence of k at some index mentions any list that
      holds k. */
  lemma MentionsAt(q: string, words: seq<string>, k: string, i: nat)
    requires k in words && MatchesAt(q, k, i)
    ensures Mentions(q, words)
  {
    ContainsAt(q, k, i);
  }

  /** The query a + k + b mentions any list that holds k. */
  lemma MentionsOn(words: seq<string>, k: string, a: string, b: string)
    requires k in words
    ensures Mentions(a + k + b, words)
  {
    ContainsMiddle(a, k, b);
  }

  /** A list is mentioned exactly when its first word occurs or the rest of the
      list is mentioned. */
  lemma MentionsCons(q: string, words: seq<string>)
    requires words != []
    ensures Mentions(q, words) <==> Contains(q, words[0]) || Mentions(q, words[1..])
  {
    if Mentions(q, words[1..]) {
      var k :| k in words[1..] && Contains(q, k);
      assert k in words;
    }
    if Mentions(q, words) {
      var k :| k in words && Contains(q, k);
      if k != words[0] {
        assert k in words[1..];
      }
    }
  }
}
