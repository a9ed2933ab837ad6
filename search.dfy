/** The search box shared by the patient and user lists: a record is kept
    when the lowercased term occurs in its lowercased name or email. */
module Search {
  import opened Strings

  predicate MatchesSearch(name: string, email: string, term: string)
  {
    Includes(Lower(name), Lower(term)) || Includes(Lower(email), Lower(term))
  }

  /** An empty search matches every record. */
  lemma EmptySearchMatches(name: string, email: string)
    ensures MatchesSearch(name, email, "")
  {
    assert Lower("") == "";
    IncludesEmpty(Lower(name));
  }

  /** The search ignores the case of the term: a term and its lowercase
      match the same records. */
  lemma SearchIgnoresTermCase(name: string, email: string, term: string)
    ensures MatchesSearch(name, email, Lower(term)) <==> MatchesSearch(name, email, term)
  {
    LowerIdempotent(term);
  }

  /** A term that occurs in the name as written is found. */
  lemma NamePartMatches(a: string, term: string, b: string, email: string)
    ensures MatchesSearch(a + term + b, email, term)
  {
    var name := a + term + b;
    assert Lower(name)[|a|..|a| + |term|] == Lower(term);
    assert OccursAt(Lower(name), Lower(term), |a|);
    IncludesIffOccurs(Lower(name), Lower(term));
  }
}
