/** The suggestion list that `getSuggestions` computes from the candidate pool
    and the text of the field, as a function of its inputs, and what that list
    is: the first `maxResults + 1` matching candidates, in source order. */
module Suggest {
  import opened Matching

  /** The candidates of s that the query matches, in their order in s. */
  function Filter(q: string, s: seq<string>): seq<string>
  {
    if s == [] then [] else (if Matches(q, s[0]) then [s[0]] else []) + Filter(q, s[1..])
  }

  /** The first n elements of s, or all of s when it has fewer; nothing when n is not positive. */
  function Take<T>(n: int, s: seq<T>): (r: seq<T>)
    ensures |r| == if n <= 0 then 0 else if n < |s| then n else |s|
    ensures r == s[..|r|]
  {
    if n <= 0 then [] else if n < |s| then s[..n] else s
  }

  /** a is s with some elements left out, the rest kept in order. */
  predicate IsSubsequence<T(==)>(a: seq<T>, s: seq<T>)
    decreases |s|
  {
    if a == [] then true
    else if s == [] then false
    else if a[0] == s[0] then IsSubsequence(a[1..], s[1..])
    else IsSubsequence(a, s[1..])
  }

  /** How many results the loop collects at most: the cap is tested before each push, so one
      more than `maxResults`, and none at all when `maxResults` is at most -1. */
  function Cap(maxResults: int): nat
  {
    if maxResults + 1 < 0 then 0 else maxResults + 1
  }

  /** The list `getSuggestions` returns for the text `query`: nothing when the text is shorter
      than `minLength`, otherwise the first `maxResults + 1` matching candidates. */
  function Suggestions(source: seq<string>, query: string, minLength: int, maxResults: int): seq<string>
  {
    if |query| < minLength then [] else Take(maxResults + 1, Filter(query, source))
  }

  lemma {:induction false} FilterConcat(q: string, a: seq<string>, b: seq<string>)
    ensures Filter(q, a + b) == Filter(q, a) + Filter(q, b)
  {
    if a == [] {
      assert a + b == b;
    } else {
      assert (a + b)[1..] == a[1..] + b;
      FilterConcat(q, a[1..], b);
    }
  }

  /** Filtering one more candidate appends it exactly when it matches. */
  lemma FilterSnoc(q: string, s: seq<string>, x: string)
    ensures Filter(q, s + [x]) == Filter(q, s) + (if Matches(q, x) then [x] else [])
  {
    FilterConcat(q, s, [x]);
    assert [x][1..] == [];
  }

  /** Every element of the filtered list is a matching candidate, and every matching candidate is in it. */
  lemma {:induction false} FilterMembers(q: string, s: seq<string>)
    ensures forall x :: x in Filter(q, s) <==> x in s && Matches(q, x)
  {
    if s != [] {
      FilterMembers(q, s[1..]);
      assert s == [s[0]] + s[1..];
    }
  }

  /** Filtering keeps every occurrence of a matching candidate and drops every occurrence of the others. */
  lemma {:induction false} FilterCounts(q: string, s: seq<string>, x: string)
    ensures multiset(Filter(q, s))[x] == if Matches(q, x) then multiset(s)[x] else 0
  {
    if s != [] {
      FilterCounts(q, s[1..], x);
      assert s == [s[0]] + s[1..];
      assert multiset(s) == multiset([s[0]]) + multiset(s[1..]);
    }
  }

  /** The filtered list keeps the source order. */
  lemma {:induction false} FilterIsSubsequence(q: string, s: seq<string>)
    ensures IsSubsequence(Filter(q, s), s)
  {
    if s != [] {
      FilterIsSubsequence(q, s[1..]);
      if Matches(q, s[0]) {
        assert Filter(q, s) == [s[0]] + Filter(q, s[1..]);
        assert Filter(q, s)[1..] == Filter(q, s[1..]);
      } else {
        assert Filter(q, s) == Filter(q, s[1..]);
        if Filter(q, s) != [] {
          FilterMembers(q, s[1..]);
          assert Filter(q, s)[0] in Filter(q, s[1..]);
        }
      }
    }
  }

  lemma {:induction false} SubsequenceMembers<T>(a: seq<T>, s: seq<T>)
    requires IsSubsequence(a, s)
    ensures forall x :: x in a ==> x in s
  {
    if a != [] && s != [] {
      if a[0] == s[0] {
        SubsequenceMembers(a[1..], s[1..]);
        assert a == [a[0]] + a[1..];
      } else {
        SubsequenceMembers(a, s[1..]);
      }
    }
  }

  lemma {:induction false} SubsequencePrefix<T>(a: seq<T>, s: seq<T>, n: nat)
    requires IsSubsequence(a, s) && n <= |a|
    ensures IsSubsequence(a[..n], s)
  {
    if n > 0 && s != [] {
      if a[0] == s[0] {
        SubsequencePrefix(a[1..], s[1..], n - 1);
        assert a[..n][1..] == a[1..][..n - 1];
      } else {
        SubsequencePrefix(a, s[1..], n);
      }
    }
  }

  /** Cutting the filtered list once it holds n elements gives the n-element prefix of the
      full filtered list: later candidates can only add at the end. */
  lemma FilterPrefixIsTake(q: string, s: seq<string>, i: nat, n: int)
    requires i <= |s| && n == |Filter(q, s[..i])|
    ensures Take(n, Filter(q, s)) == Filter(q, s[..i])
  {
    assert s == s[..i] + s[i..];
    FilterConcat(q, s[..i], s[i..]);
  }

  /** A text shorter than `minLength` gets no suggestions. */
  lemma ShortQueryHasNoSuggestions(source: seq<string>, query: string, minLength: int, maxResults: int)
    requires |query| < minLength
    ensures Suggestions(source, query, minLength, maxResults) == []
  {
  }

  /** Otherwise the list is the first matches in source order: a prefix of all matching
      candidates, as long as the cap allows, shorter only when fewer candidates match; every
      item matches, comes from the source, and the items keep the source order. */
  lemma SuggestionsAreFirstMatches(source: seq<string>, query: string, minLength: int, maxResults: int)
    requires |query| >= minLength
    ensures var r := Suggestions(source, query, minLength, maxResults);
            var all := Filter(query, source);
            && r == all[..|r|]
            && |r| == (if Cap(maxResults) < |all| then Cap(maxResults) else |all|)
            && (|r| < Cap(maxResults) ==> r == all)
            && (forall x :: x in r ==> x in source && Matches(query, x))
            && IsSubsequence(r, source)
  {
    var r := Suggestions(source, query, minLength, maxResults);
    var all := Filter(query, source);
    FilterMembers(query, source);
    assert forall x :: x in r ==> x in all;
    FilterIsSubsequence(query, source);
    SubsequencePrefix(all, source, |r|);
  }

  /** Whatever the text, the list has at most `maxResults + 1` items, all from the source in source order. */
  lemma SuggestionsBounded(source: seq<string>, query: string, minLength: int, maxResults: int)
    ensures var r := Suggestions(source, query, minLength, maxResults);
            |r| <= Cap(maxResults) && IsSubsequence(r, source) && (forall x :: x in r ==> x in source)
  {
    var r := Suggestions(source, query, minLength, maxResults);
    if |query| >= minLength {
      SuggestionsAreFirstMatches(source, query, minLength, maxResults);
    }
    SubsequenceMembers(r, source);
  }

  /** The worked example: with the pool apple, apricot, banana and the default limits, "ap"
      suggests apple and apricot in that order, while "an" suggests nothing, because the only
      "an" in banana does not start at a word boundary. */
  lemma Scenario()
    ensures Suggestions(["apple", "apricot", "banana"], "ap", 2, 10) == ["apple", "apricot"]
    ensures Suggestions(["apple", "apricot", "banana"], "an", 2, 10) == []
    ensures Suggestions(["apple", "apricot", "banana"], "a", 2, 10) == []
  {
    var pool := ["apple", "apricot", "banana"];
    assert MatchAt("ap", "apple", 0);
    assert MatchAt("ap", "apricot", 0);
    NotInWord("ap", "banana");
    NotInWord("an", "apple");
    NotInWord("an", "apricot");
    NoMatchInsideWord();
    assert pool[1..][1..][1..] == [];
    assert Filter("ap", pool) == ["apple", "apricot"];
    assert Filter("an", pool) == [];
  }

  /** A two-letter query that differs from a candidate's first two letters, against a candidate
      made only of lower-case letters, does not match it. */
  lemma NotInWord(q: string, e: string)
    requires |q| == 2 && |e| >= 2 && (e[0] != q[0] || e[1] != q[1])
    requires forall k :: 0 <= k < |e| ==> 'a' <= e[k] <= 'z'
    requires forall k :: 0 <= k < |q| ==> 'a' <= q[k] <= 'z'
    ensures !Matches(q, e)
  {
    forall p: nat | p <= |e| - 2
      ensures !MatchAt(q, e, p)
    {
      if p == 0 {
        if e[0] != q[0] {
          assert e[0..2][0] == e[0];
        } else {
          assert e[0..2][1] == e[1];
        }
      } else {
        NoMatchInsideWordAt(q, e, p);
      }
    }
  }
}
