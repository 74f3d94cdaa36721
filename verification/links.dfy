/**
 * `Link`, the `Links` set and its two insertion operations: exact
 * de-duplication `Add` (goscraper.go:236-246) and similarity
 * de-duplication `addNotSimiler` (goscraper.go:461-475).
 */
module LinkSets {
  import opened Urls

  /** One discovered action; equality of two links is equality of every field. */
  datatype Link = Link(
    from: URL,
    to: URL,
    attrId: string,
    attrOnClick: string,
    text: string,
    tag: string,
    httpMethod: string,
    selector: string)

  /** The condition of `addNotSimiler`: similar From, similar To and the same onclick text. */
  predicate SimilarLink(a: Link, b: Link) {
    Similar(a.from, b.from) && Similar(a.to, b.to) && a.attrOnClick == b.attrOnClick
  }

  lemma SimilarLinkSymmetric(a: Link, b: Link)
    ensures SimilarLink(a, b) <==> SimilarLink(b, a)
  {
  }

  lemma SimilarLinkTransitive(a: Link, b: Link, c: Link)
    requires SimilarLink(a, b) && SimilarLink(b, c)
    ensures SimilarLink(a, c)
  {
  }

  /** Some member of `s` is similar to `l`. */
  predicate HasSimilar(s: set<Link>, l: Link) {
    exists m :: m in s && SimilarLink(l, m)
  }

  /**
   * The Go `Links` map. Only the value `true` is ever stored in it, so the
   * map is its set of keys.
   */
  class Links {
    var links: set<Link>

    /** `make(Links)`. */
    constructor ()
      ensures links == {}
    {
      links := {};
    }

    /**
     * `Add`: refuses a link whose From and To render to the same string and
     * a link that is already a key; otherwise inserts it. `render` stands for
     * `url.URL.String()`.
     */
    method Add(link: Link, render: URL -> string) returns (ok: bool)
      modifies this
      ensures ok <==> render(link.from) != render(link.to) && link !in old(links)
      ensures links == if ok then old(links) + {link} else old(links)
    {
      if render(link.from) == render(link.to) {
        ok := false;
      } else if link in links {
        ok := false;
      } else {
        links := links + {link};
        ok := true;
      }
    }

    /**
     * `addNotSimiler`: scans the members with a `found` flag, stopping at the
     * first similar one; inserts `link` only when none was found.
     */
    method AddNotSimilar(link: Link) returns (isAdded: bool)
      modifies this
      ensures isAdded <==> !HasSimilar(old(links), link)
      ensures links == if isAdded then old(links) + {link} else old(links)
    {
      var found := false;
      var rest := links;
      ghost var similarOne: Link;
      while rest != {}
        invariant links == old(links) && rest <= links
        invariant found ==> similarOne in links && SimilarLink(link, similarOne)
        invariant forall m :: m in links - rest ==> !SimilarLink(link, m)
        decreases rest
      {
        var l :| l in rest;
        var sameFrom := IsSimilarURL(link.from, l.from);
        var sameTo := IsSimilarURL(link.to, l.to);
        if sameFrom && sameTo && link.attrOnClick == l.attrOnClick {
          found := true;
          similarOne := l;
          break;
        }
        rest := rest - {l};
      }
      if found {
        isAdded := false;
      } else {
        links := links + {link};
        isAdded := true;
      }
    }
  }
}
