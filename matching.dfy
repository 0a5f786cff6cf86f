/** The match test that decides whether a candidate is suggested for what the
    user typed: the pattern `(\b` + query + `)` compiled with the `i` flag,
    applied to one candidate. The query is taken literally (as a regular
    expression it is the literal text when it holds no metacharacter), word
    characters are those of `\w`, and case is folded on ASCII letters. */
module Matching {

  /** A character of the `\w` class: ASCII letters, digits and underscore. */
  predicate IsWordChar(c: char) {
    ('a' <= c <= 'z') || ('A' <= c <= 'Z') || ('0' <= c <= '9') || c == '_'
  }

  /** Case folding of one character as the `i` flag compares it (ASCII letters only). */
  function Fold(c: char): (f: char)
    ensures 'A' <= c <= 'Z' ==> 'a' <= f <= 'z' && f as int == c as int + 32
    ensures !('A' <= c <= 'Z') ==> f == c
  {
    if 'A' <= c <= 'Z' then (c as int + 32) as char else c
  }

  /** The two strings are equal up to case. */
  predicate SameFold(a: string, b: string) {
    |a| == |b| && forall k :: 0 <= k < |a| ==> Fold(a[k]) == Fold(b[k])
  }

  /** `\b` holds at position p of e: exactly one of the characters around p is a word character. */
  predicate BoundaryAt(e: string, p: nat)
    requires p <= |e|
  {
    (p > 0 && IsWordChar(e[p - 1])) != (p < |e| && IsWordChar(e[p]))
  }

  /** The pattern matches e starting at position p. */
  predicate MatchAt(q: string, e: string, p: nat)
    requires p + |q| <= |e|
  {
    BoundaryAt(e, p) && SameFold(e[p..p + |q|], q)
  }

  /** `test` succeeds: the pattern matches somewhere in e. */
  predicate Matches(q: string, e: string) {
    exists p: nat | p <= |e| - |q| :: MatchAt(q, e, p)
  }

  /** Case does not matter in the query. */
  lemma MatchesIgnoresCase(q: string, q': string, e: string)
    requires SameFold(q, q')
    ensures Matches(q, e) <==> Matches(q', e)
  {
    if Matches(q, e) {
      var p: nat :| p <= |e| - |q| && MatchAt(q, e, p);
      assert MatchAt(q', e, p);
    }
    if Matches(q', e) {
      var p: nat :| p <= |e| - |q'| && MatchAt(q', e, p);
      assert MatchAt(q, e, p);
    }
  }

  /** A query typed as the beginning of a candidate that starts with a word character matches it. */
  lemma PrefixMatches(q: string, e: string)
    requires |q| <= |e| && |e| > 0 && IsWordChar(e[0])
    requires SameFold(e[..|q|], q)
    ensures Matches(q, e)
  {
    assert MatchAt(q, e, 0);
  }

  /** Case folding never turns a word character into a non-word character or back. */
  lemma FoldKeepsWordChar(c: char)
    ensures IsWordChar(Fold(c)) == IsWordChar(c)
  {
  }

  /** Case does not matter in the candidate either. */
  lemma MatchesIgnoresCandidateCase(q: string, e: string, e': string)
    requires SameFold(e, e')
    ensures Matches(q, e) <==> Matches(q, e')
  {
    forall p: nat | p + |q| <= |e|
      ensures MatchAt(q, e, p) <==> MatchAt(q, e', p)
    {
      if p > 0 {
        FoldKeepsWordChar(e[p - 1]);
        FoldKeepsWordChar(e'[p - 1]);
      }
      if p < |e| {
        FoldKeepsWordChar(e[p]);
        FoldKeepsWordChar(e'[p]);
      }
      assert BoundaryAt(e, p) == BoundaryAt(e', p);
      var w, w' := e[p..p + |q|], e'[p..p + |q|];
      assert SameFold(w, w') by {
        forall k | 0 <= k < |w| ensures Fold(w[k]) == Fold(w'[k]) {
          assert w[k] == e[p + k] && w'[k] == e'[p + k];
        }
      }
    }
    if Matches(q, e) {
      var p: nat :| p <= |e| - |q| && MatchAt(q, e, p);
      assert MatchAt(q, e', p);
    }
    if Matches(q, e') {
      var p: nat :| p <= |e'| - |q| && MatchAt(q, e', p);
      assert MatchAt(q, e, p);
    }
  }

  /** No match starts between two word characters: `\b` fails at every position inside a word. */
  lemma NoMatchInsideWordAt(q: string, e: string, p: nat)
    requires 0 < p < |e| && p + |q| <= |e| && IsWordChar(e[p - 1]) && IsWordChar(e[p])
    ensures !MatchAt(q, e, p)
  {
  }

  /** An instance: "an" occurs in "banana" only inside the word, so it does not match, while
      it matches "an apple" at the start. */
  lemma NoMatchInsideWord()
    ensures !Matches("an", "banana")
    ensures Matches("an", "an apple")
  {
    var e := "banana";
    forall p: nat | p <= |e| - 2
      ensures !MatchAt("an", e, p)
    {
      if p == 0 {
        assert e[0..2][0] == 'b';
      } else {
        NoMatchInsideWordAt("an", e, p);
      }
    }
    assert MatchAt("an", "an apple", 0);
  }
}
