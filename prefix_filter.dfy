/**
 * The `startsWith` test of a base-sensitivity collator: a label matches a
 * query when the label begins with the query, ignoring ASCII letter case.
 */
module PrefixFilter {

  /** ASCII lower-casing of one character; every other character is kept. */
  function LowerChar(c: char): (r: char)
    ensures 'A' <= c <= 'Z' ==> 'a' <= r <= 'z'
    ensures !('A' <= c <= 'Z') ==> r == c
  {
    if 'A' <= c <= 'Z' then (c as int - 'A' as int + 'a' as int) as char else c
  }

  /** Case-folded copy of a string. */
  function Fold(s: string): (r: string)
    ensures |r| == |s|
    ensures forall i :: 0 <= i < |s| ==> r[i] == LowerChar(s[i])
  {
    seq(|s|, i requires 0 <= i < |s| => LowerChar(s[i]))
  }

  /** `startsWith(label, query)`: the first `|query|` characters of `label` equal `query` up to case. */
  predicate StartsWith(text: string, query: string)
    ensures StartsWith(text, query) ==> |query| <= |text|
    ensures query == [] ==> StartsWith(text, query)
  {
    |query| <= |text| && Fold(text[..|query|]) == Fold(query)
  }

  /** The empty query matches every label. */
  lemma EmptyQueryMatchesAll(text: string)
    ensures StartsWith(text, "")
  {
    assert text[..0] == [];
  }

  /** Every label matches itself as a query. */
  lemma LabelMatchesItself(text: string)
    ensures StartsWith(text, text)
  {
    assert text[..|text|] == text;
  }

  /** Case does not matter: a query matches exactly when its case-folded form does. */
  lemma {:induction false} CaseInsensitive(text: string, query: string)
    ensures StartsWith(text, query) <==> StartsWith(text, Fold(query))
  {
    var f := Fold(query);
    assert Fold(f) == Fold(query) by {
      forall i | 0 <= i < |query| ensures Fold(f)[i] == Fold(query)[i] {
        assert LowerChar(LowerChar(query[i])) == LowerChar(query[i]);
      }
    }
  }

  /** A label that matches a longer query also matches every prefix of that query. */
  lemma {:induction false} MatchShorterQuery(text: string, query: string, k: nat)
    requires k <= |query|
    requires StartsWith(text, query)
    ensures StartsWith(text, query[..k])
  {
    var a := Fold(text[..k]);
    var b := Fold(query[..k]);
    forall i | 0 <= i < k ensures a[i] == b[i] {
      assert Fold(text[..|query|])[i] == Fold(query)[i];
    }
  }

  /** A one-character query matches exactly the texts whose first character equals it up to case. */
  lemma OneCharQuery(text: string, c: char)
    ensures StartsWith(text, [c]) <==> |text| >= 1 && LowerChar(text[0]) == LowerChar(c)
  {
    if |text| >= 1 {
      assert Fold(text[..1]) == [LowerChar(text[0])];
    }
  }
}
