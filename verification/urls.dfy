/**
 * The parts of Go's `url.URL` that the scraper reads, and the similarity
 * test `isSimilerURL` (goscraper.go:477-497).
 */
module Urls {

  /**
   * A parsed URL. `query` is what `u.Query()` returns: each query key with
   * the list of its values.
   */
  datatype URL = URL(
    scheme: string,
    host: string,
    path: string,
    query: map<string, seq<string>>,
    fragment: string)

  /** Two URLs are similar when host, path and the set of query keys agree; values and scheme are ignored. */
  predicate Similar(u1: URL, u2: URL) {
    u1.host == u2.host && u1.path == u2.path && u1.query.Keys == u2.query.Keys
  }

  lemma SimilarReflexive(u: URL)
    ensures Similar(u, u)
  {
  }

  lemma SimilarSymmetric(u1: URL, u2: URL)
    ensures Similar(u1, u2) <==> Similar(u2, u1)
  {
  }

  lemma SimilarTransitive(u1: URL, u2: URL, u3: URL)
    requires Similar(u1, u2) && Similar(u2, u3)
    ensures Similar(u1, u3)
  {
  }

  /** Query values, scheme and fragment never separate two URLs; a different path always does. */
  lemma SimilarIgnoresValues(u: URL, scheme: string, query: map<string, seq<string>>, fragment: string)
    requires query.Keys == u.query.Keys
    ensures Similar(u, u.(scheme := scheme, query := query, fragment := fragment))
    ensures forall p :: p != u.path ==> !Similar(u, u.(path := p))
  {
  }

  /** A subset of a finite set with as many elements is the whole set. */
  lemma {:induction false} SubsetOfSameSize<T>(a: set<T>, b: set<T>)
    requires a <= b && |a| == |b|
    ensures a == b
  {
    if a != b {
      var x :| x in b && x !in a;
      assert a <= b - {x};
      assert |b - {x}| == |b| - 1;
      SubsetSize(a, b - {x});
      assert false;
    }
  }

  lemma {:induction false} SubsetSize<T>(a: set<T>, b: set<T>)
    requires a <= b
    ensures |a| <= |b|
  {
    if a != {} {
      var x :| x in a;
      SubsetSize(a - {x}, b - {x});
    }
  }

  /**
   * `isSimilerURL`: compares host and path, then the number of query keys,
   * then looks up each key of the first query in the second, stopping at the
   * first one that is missing.
   */
  method IsSimilarURL(u1: URL, u2: URL) returns (same: bool)
    ensures same <==> Similar(u1, u2)
  {
    if u1.host == u2.host && u1.path == u2.path {
      var q1, q2 := u1.query, u2.query;
      if |q1| != |q2| {
        assert |q1.Keys| != |q2.Keys|;
        return false;
      }
      same := true;
      var rest := q1.Keys;
      while rest != {}
        invariant rest <= q1.Keys
        invariant same
        invariant forall k :: k in q1.Keys - rest ==> k in q2
        decreases rest
      {
        var k :| k in rest;
        if k !in q2 {
          same := false;
          break;
        }
        rest := rest - {k};
      }
      if same {
        assert q1.Keys <= q2.Keys;
        assert |q1.Keys| == |q2.Keys|;
        SubsetOfSameSize(q1.Keys, q2.Keys);
      }
      return same;
    } else {
      return false;
    }
  }
}
