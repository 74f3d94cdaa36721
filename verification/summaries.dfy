/**
 * The two reductions over a `Links` set: `SummaryLink` (goscraper.go:453-459),
 * one representative per similarity class, and `UniqURL`
 * (goscraper.go:427-451), the list of distinct endpoints.
 *
 * Both loop over a Go map, whose iteration order is unspecified. The methods
 * pick each next key nondeterministically and return the order they used as
 * a ghost sequence; the specification functions take that order as input, so
 * every lemma holds for every order.
 */
module Summaries {
  import opened Base
  import opened Urls
  import opened LinkSets

  /** `order` lists every member of `s` exactly once. */
  ghost predicate Enumerates(order: seq<Link>, s: set<Link>) {
    && (forall i, j :: 0 <= i < j < |order| ==> order[i] != order[j])
    && (forall x :: x in s <==> x in order)
  }

  // ---------------------------------------------------------------- SummaryLink

  /** The set `SummaryLink` builds when the input map is visited in `order`. */
  function Summarize(order: seq<Link>): set<Link> {
    if order == [] then {}
    else
      var r := Summarize(order[..|order| - 1]);
      var l := order[|order| - 1];
      if HasSimilar(r, l) then r else r + {l}
  }

  lemma SummarizeAppend(order: seq<Link>, l: Link)
    ensures Summarize(order + [l]) ==
      if HasSimilar(Summarize(order), l) then Summarize(order) else Summarize(order) + {l}
  {
    assert (order + [l])[..|order|] == order;
  }

  /** Every representative is one of the input links. */
  lemma {:induction false} SummarizeSubset(order: seq<Link>)
    ensures forall x :: x in Summarize(order) ==> x in order
  {
    if order != [] {
      var p := order[..|order| - 1];
      SummarizeSubset(p);
      assert forall x :: x in p ==> x in order;
    }
  }

  /** No two distinct representatives are similar. */
  lemma {:induction false} SummarizeDistinct(order: seq<Link>)
    ensures forall a, b :: a in Summarize(order) && b in Summarize(order) && a != b ==> !SimilarLink(a, b)
  {
    if order != [] {
      var p := order[..|order| - 1];
      var l := order[|order| - 1];
      SummarizeDistinct(p);
      var r := Summarize(p);
      if !HasSimilar(r, l) {
        forall a, b | a in r + {l} && b in r + {l} && a != b
          ensures !SimilarLink(a, b)
        {
          if a == l {
            assert !SimilarLink(l, b);
          } else if b == l {
            assert !SimilarLink(l, a);
            SimilarLinkSymmetric(a, l);
          }
        }
      }
    }
  }

  /** Each step only adds representatives. */
  lemma {:induction false} SummarizeGrows(order: seq<Link>, n: nat)
    requires n <= |order|
    ensures Summarize(order[..n]) <= Summarize(order)
    decreases |order| - n
  {
    if n < |order| {
      var q := order[..n + 1];
      SummarizeGrows(order, n + 1);
      assert q[..n] == order[..n];
      assert Summarize(order[..n]) <= Summarize(q);
    } else {
      assert order[..n] == order;
    }
  }

  /** Every input link has a similar representative. */
  lemma {:induction false} SummarizeCovers(order: seq<Link>)
    ensures forall i :: 0 <= i < |order| ==> HasSimilar(Summarize(order), order[i])
  {
    if order != [] {
      var p := order[..|order| - 1];
      var l := order[|order| - 1];
      SummarizeCovers(p);
      SummarizeGrows(order, |order| - 1);
      var r, s := Summarize(p), Summarize(order);
      forall i | 0 <= i < |order|
        ensures HasSimilar(s, order[i])
      {
        if i < |p| {
          var m :| m in r && SimilarLink(p[i], m);
          assert m in s;
        } else if !HasSimilar(r, l) {
          assert l in s && SimilarLink(l, l);
        } else {
          var m :| m in r && SimilarLink(l, m);
          assert m in s;
        }
      }
    }
  }

  /** An input whose links are pairwise dissimilar is kept whole. */
  lemma {:induction false} SummarizeKeepsDissimilar(order: seq<Link>)
    requires forall i, j :: 0 <= i < |order| && 0 <= j < |order| && SimilarLink(order[i], order[j]) ==> order[i] == order[j]
    ensures forall x :: x in Summarize(order) <==> x in order
  {
    if order != [] {
      var p := order[..|order| - 1];
      var l := order[|order| - 1];
      SummarizeKeepsDissimilar(p);
      var r := Summarize(p);
      if HasSimilar(r, l) {
        var m :| m in r && SimilarLink(l, m);
        var j :| 0 <= j < |p| && p[j] == m;
        assert order[j] == m && SimilarLink(order[|order| - 1], order[j]);
        assert l == m;
      }
    }
  }

  /** Summarising an enumeration of a summary gives that summary back. */
  lemma SummarizeIdempotent(order: seq<Link>, again: seq<Link>)
    requires forall x :: x in again <==> x in Summarize(order)
    ensures Summarize(again) == Summarize(order)
  {
    SummarizeDistinct(order);
    SummarizeKeepsDissimilar(again);
  }

  /**
   * Two orders of the same input give summaries that represent the same
   * classes: every representative of one has a similar one in the other.
   */
  lemma SummariesAgree(order1: seq<Link>, order2: seq<Link>)
    requires forall x :: x in order1 <==> x in order2
    ensures forall m :: m in Summarize(order1) ==> HasSimilar(Summarize(order2), m)
  {
    SummarizeSubset(order1);
    SummarizeCovers(order2);
    forall m | m in Summarize(order1)
      ensures HasSimilar(Summarize(order2), m)
    {
      var i :| 0 <= i < |order2| && order2[i] == m;
    }
  }

  /**
   * `SummaryLink`: visits the input map in some order, adding each link to
   * a fresh set with `addNotSimiler`; the error result is always nil.
   */
  method SummaryLink(input: Links) returns (res: Links, err: Option<string>, ghost order: seq<Link>)
    ensures fresh(res) && err == None
    ensures Enumerates(order, input.links) && res.links == Summarize(order)
    ensures res.links <= input.links
    ensures forall a, b :: a in res.links && b in res.links && a != b ==> !SimilarLink(a, b)
    ensures forall l :: l in input.links ==> HasSimilar(res.links, l)
  {
    res := new Links();
    order := [];
    var rest := input.links;
    while rest != {}
      invariant fresh(res)
      invariant rest <= input.links
      invariant forall x :: x in input.links <==> x in rest || x in order
      invariant forall x :: x in rest ==> x !in order
      invariant forall i, j :: 0 <= i < j < |order| ==> order[i] != order[j]
      invariant res.links == Summarize(order)
      decreases rest
    {
      var l :| l in rest;
      SummarizeAppend(order, l);
      var _ := res.AddNotSimilar(l);
      order := order + [l];
      rest := rest - {l};
    }
    err := None;
    SummarizeSubset(order);
    SummarizeDistinct(order);
    SummarizeCovers(order);
    forall l | l in input.links
      ensures HasSimilar(res.links, l)
    {
      var i :| 0 <= i < |order| && order[i] == l;
    }
  }

  // ---------------------------------------------------------------- UniqURL

  /** Some URL of `us` is similar to `u`. */
  predicate AnySimilar(us: seq<URL>, u: URL) {
    exists j :: 0 <= j < |us| && Similar(u, us[j])
  }

  /** `u` is the From or the To of some link of `order`. */
  predicate IsEndpoint(order: seq<Link>, u: URL) {
    exists i :: 0 <= i < |order| && (order[i].from == u || order[i].to == u)
  }

  /**
   * One outer iteration of `UniqURL`: From and To are both compared with
   * the list as it was before this link, then appended if no similar URL
   * was found.
   */
  function UniqStep(us: seq<URL>, l: Link): seq<URL> {
    var foundFrom := AnySimilar(us, l.from);
    var foundTo := AnySimilar(us, l.to);
    us + (if foundFrom then [] else [l.from]) + (if foundTo then [] else [l.to])
  }

  /** The list `UniqURL` returns when the input map is visited in `order`. */
  function Uniq(order: seq<Link>): seq<URL> {
    if order == [] then [] else UniqStep(Uniq(order[..|order| - 1]), order[|order| - 1])
  }

  lemma UniqAppend(order: seq<Link>, l: Link)
    ensures Uniq(order + [l]) == UniqStep(Uniq(order), l)
  {
    assert (order + [l])[..|order|] == order;
  }

  /** Every From and every To of the input is similar to some listed URL. */
  lemma {:induction false} UniqCovers(order: seq<Link>)
    ensures forall i :: 0 <= i < |order| ==> AnySimilar(Uniq(order), order[i].from) && AnySimilar(Uniq(order), order[i].to)
  {
    if order != [] {
      var p := order[..|order| - 1];
      var l := order[|order| - 1];
      UniqCovers(p);
      var us, r := Uniq(p), Uniq(order);
      assert us == r[..|us|];
      forall i | 0 <= i < |order|
        ensures AnySimilar(r, order[i].from) && AnySimilar(r, order[i].to)
      {
        if i < |p| {
          var j :| 0 <= j < |us| && Similar(p[i].from, us[j]);
          assert r[j] == us[j];
          var k :| 0 <= k < |us| && Similar(p[i].to, us[k]);
          assert r[k] == us[k];
        } else {
          if !AnySimilar(us, l.from) {
            assert r[|us|] == l.from && Similar(l.from, l.from);
          } else {
            var j :| 0 <= j < |us| && Similar(l.from, us[j]);
            assert r[j] == us[j];
          }
          if !AnySimilar(us, l.to) {
            assert r[|r| - 1] == l.to && Similar(l.to, l.to);
          } else {
            var k :| 0 <= k < |us| && Similar(l.to, us[k]);
            assert r[k] == us[k];
          }
        }
      }
    }
  }

  /** Every listed URL is an endpoint of some input link, and there are at most two per link. */
  lemma {:induction false} UniqSound(order: seq<Link>)
    ensures |Uniq(order)| <= 2 * |order|
    ensures forall k :: 0 <= k < |Uniq(order)| ==> IsEndpoint(order, Uniq(order)[k])
  {
    if order != [] {
      var p := order[..|order| - 1];
      var l := order[|order| - 1];
      UniqSound(p);
      var us, r := Uniq(p), Uniq(order);
      forall k | 0 <= k < |r|
        ensures IsEndpoint(order, r[k])
      {
        if k < |us| {
          assert r[k] == us[k];
          var i :| 0 <= i < |p| && (p[i].from == us[k] || p[i].to == us[k]);
          assert order[i] == p[i];
        } else {
          assert r[k] == l.from || r[k] == l.to;
          assert order[|order| - 1] == l;
        }
      }
    }
  }

  /**
   * The de-duplication `UniqURL` achieves: two listed URLs are similar only
   * when they are neighbours holding the From and the To of one link.
   */
  predicate SimilarOnlyWithinLink(us: seq<URL>, order: seq<Link>) {
    forall i, j :: 0 <= i < j < |us| && Similar(us[i], us[j]) ==>
      j == i + 1 && exists k :: 0 <= k < |order| && us[i] == order[k].from && us[j] == order[k].to
  }

  /** One step keeps the de-duplication: an appended URL matched nothing listed before. */
  lemma UniqStepWithinLink(us: seq<URL>, p: seq<Link>, l: Link)
    requires SimilarOnlyWithinLink(us, p)
    ensures SimilarOnlyWithinLink(UniqStep(us, l), p + [l])
  {
    var r := UniqStep(us, l);
    var order := p + [l];
    assert forall m :: |us| <= m < |r| ==> !AnySimilar(us, r[m]);
    forall i, j | 0 <= i < j < |r|
      ensures Similar(r[i], r[j]) ==>
        j == i + 1 && exists k :: 0 <= k < |order| && r[i] == order[k].from && r[j] == order[k].to
    {
      if j < |us| {
        assert r[i] == us[i] && r[j] == us[j];
        if Similar(us[i], us[j]) {
          var k :| 0 <= k < |p| && us[i] == p[k].from && us[j] == p[k].to;
          assert order[k] == p[k];
        }
      } else if i < |us| {
        assert r[i] == us[i] && !AnySimilar(us, r[j]);
        assert !Similar(r[j], us[i]);
        SimilarSymmetric(r[i], r[j]);
      } else {
        assert |r| == |us| + 2 && r[i] == l.from && r[j] == l.to;
        assert order[|p|] == l;
      }
    }
  }

  /** For every visiting order, similar listed URLs are the two ends of a single link. */
  lemma {:induction false} UniqSimilarOnlyWithinOneLink(order: seq<Link>)
    ensures SimilarOnlyWithinLink(Uniq(order), order)
  {
    if order != [] {
      var p := order[..|order| - 1];
      var l := order[|order| - 1];
      UniqSimilarOnlyWithinOneLink(p);
      UniqStepWithinLink(Uniq(p), p, l);
      assert p + [l] == order;
    }
  }

  /** The inner loop of `UniqURL`: compares From and To of `l` with every URL of `us`. */
  method ScanSimilar(us: seq<URL>, l: Link) returns (foundFrom: bool, foundTo: bool)
    ensures foundFrom <==> AnySimilar(us, l.from)
    ensures foundTo <==> AnySimilar(us, l.to)
  {
    foundFrom, foundTo := false, false;
    for k := 0 to |us|
      invariant foundFrom <==> AnySimilar(us[..k], l.from)
      invariant foundTo <==> AnySimilar(us[..k], l.to)
    {
      assert us[..k + 1] == us[..k] + [us[k]];
      var sameFrom := IsSimilarURL(l.from, us[k]);
      if sameFrom {
        foundFrom := true;
      }
      var sameTo := IsSimilarURL(l.to, us[k]);
      if sameTo {
        foundTo := true;
      }
    }
    assert us[..|us|] == us;
  }

  /** The properties of `Uniq` restated over the set an order enumerates. */
  lemma UniqOfEnumeration(order: seq<Link>, s: set<Link>)
    requires Enumerates(order, s) && |order| == |s|
    ensures forall l :: l in s ==> AnySimilar(Uniq(order), l.from) && AnySimilar(Uniq(order), l.to)
    ensures forall u :: u in Uniq(order) ==> exists l :: l in s && (l.from == u || l.to == u)
    ensures |Uniq(order)| <= 2 * |s|
  {
    var urls := Uniq(order);
    UniqCovers(order);
    UniqSound(order);
    forall l | l in s
      ensures AnySimilar(urls, l.from) && AnySimilar(urls, l.to)
    {
      var i :| 0 <= i < |order| && order[i] == l;
    }
    forall u | u in urls
      ensures exists l :: l in s && (l.from == u || l.to == u)
    {
      var k :| 0 <= k < |urls| && urls[k] == u;
      var i :| 0 <= i < |order| && (order[i].from == u || order[i].to == u);
      assert order[i] in s;
    }
  }

  /** The de-duplication restated over the set an order enumerates. */
  lemma UniqWithinLinkOf(order: seq<Link>, s: set<Link>)
    requires forall x :: x in order ==> x in s
    ensures forall i, j :: 0 <= i < j < |Uniq(order)| && Similar(Uniq(order)[i], Uniq(order)[j]) ==>
      j == i + 1 && exists l :: l in s && Uniq(order)[i] == l.from && Uniq(order)[j] == l.to
  {
    var urls := Uniq(order);
    UniqSimilarOnlyWithinOneLink(order);
    forall i, j | 0 <= i < j < |urls| && Similar(urls[i], urls[j])
      ensures j == i + 1 && exists l :: l in s && urls[i] == l.from && urls[j] == l.to
    {
      var k :| 0 <= k < |order| && urls[i] == order[k].from && urls[j] == order[k].to;
      assert order[k] in order;
    }
  }

  /**
   * `UniqURL`: for each link of the map, compares its From and To with every
   * URL collected so far (all of them, without stopping early), then appends
   * each one that matched none.
   */
  method UniqURL(input: Links) returns (urls: seq<URL>, ghost order: seq<Link>)
    ensures Enumerates(order, input.links) && urls == Uniq(order)
    ensures forall l :: l in input.links ==> AnySimilar(urls, l.from) && AnySimilar(urls, l.to)
    ensures forall u :: u in urls ==> exists l :: l in input.links && (l.from == u || l.to == u)
    ensures |urls| <= 2 * |input.links|
    ensures forall i, j :: 0 <= i < j < |urls| && Similar(urls[i], urls[j]) ==>
      j == i + 1 && exists l :: l in input.links && urls[i] == l.from && urls[j] == l.to
  {
    var us: seq<URL> := [];
    order := [];
    var rest := input.links;
    while rest != {}
      invariant rest <= input.links
      invariant forall x :: x in input.links <==> x in rest || x in order
      invariant forall x :: x in rest ==> x !in order
      invariant forall i, j :: 0 <= i < j < |order| ==> order[i] != order[j]
      invariant |order| + |rest| == |input.links|
      invariant us == Uniq(order)
      decreases rest
    {
      var l :| l in rest;
      var foundFrom, foundTo := ScanSimilar(us, l);
      UniqAppend(order, l);
      if !foundFrom {
        us := us + [l.from];
      }
      if !foundTo {
        us := us + [l.to];
      }
      order := order + [l];
      rest := rest - {l};
    }
    urls := us;
    UniqOfEnumeration(order, input.links);
    UniqWithinLinkOf(order, input.links);
  }

  /**
   * Two links that share their From: the From is listed exactly once, at
   * the front (provided the first link does not point back at its own From).
   */
  lemma UniqSharedFrom(a: Link, b: Link)
    requires a.from == b.from && a.to != a.from
    ensures Uniq([a, b])[0] == a.from
    ensures forall k :: 0 < k < |Uniq([a, b])| ==> Uniq([a, b])[k] != a.from
  {
    UniqAppend([], a);
    UniqAppend([a], b);
    var one := Uniq([a]);
    assert !AnySimilar([], a.from) && !AnySimilar([], a.to);
    assert one == [a.from, a.to];
    assert AnySimilar(one, b.from) by {
      assert Similar(b.from, one[0]);
    }
    if AnySimilar(one, b.to) {
      assert Uniq([a, b]) == one;
    } else {
      assert !Similar(b.to, one[0]);
      assert Uniq([a, b]) == one + [b.to];
    }
  }

  /**
   * As written, a single link whose From and To are similar but different
   * (`/list?page=1` to `/list?page=2`) puts two similar URLs in the list:
   * To is compared with the list from before From was appended.
   */
  lemma UniqKeepsSimilarPair(l: Link)
    requires Similar(l.from, l.to) && l.from != l.to
    ensures Uniq([l]) == [l.from, l.to]
    ensures Similar(Uniq([l])[0], Uniq([l])[1])
  {
    UniqAppend([], l);
  }

  /** The input named above, written out. */
  lemma UniqPaginationExample()
    ensures var from := URL("http", "example.com", "/list", map["page" := ["1"]], "");
            var to := URL("http", "example.com", "/list", map["page" := ["2"]], "");
            var l := Link(from, to, "", "", "next", "a", "GET", "a[href],form,[onclick]");
            |Uniq([l])| == 2 && Similar(Uniq([l])[0], Uniq([l])[1])
  {
    var from := URL("http", "example.com", "/list", map["page" := ["1"]], "");
    var to := URL("http", "example.com", "/list", map["page" := ["2"]], "");
    var l := Link(from, to, "", "", "next", "a", "GET", "a[href],form,[onclick]");
    assert from != to by {
      assert from.query["page"] != to.query["page"];
    }
    UniqKeepsSimilarPair(l);
  }

  /**
   * The evidently intended step: To is compared with the list that already
   * holds the From appended for the same link.
   */
  function UniqStepIntended(us: seq<URL>, l: Link): seq<URL> {
    var withFrom := if AnySimilar(us, l.from) then us else us + [l.from];
    if AnySimilar(withFrom, l.to) then withFrom else withFrom + [l.to]
  }

  function UniqIntended(order: seq<Link>): seq<URL> {
    if order == [] then [] else UniqStepIntended(UniqIntended(order[..|order| - 1]), order[|order| - 1])
  }

  /** No two URLs of a list are similar. */
  predicate PairwiseDissimilar(us: seq<URL>) {
    forall i, j :: 0 <= i < j < |us| ==> !Similar(us[i], us[j])
  }

  /** Appending a URL similar to none of a dissimilar list keeps it dissimilar. */
  lemma AppendDissimilar(us: seq<URL>, u: URL)
    requires PairwiseDissimilar(us) && !AnySimilar(us, u)
    ensures PairwiseDissimilar(us + [u])
  {
    var r := us + [u];
    forall i, j | 0 <= i < j < |r|
      ensures !Similar(r[i], r[j])
    {
      if j == |us| {
        assert !Similar(u, us[i]);
        SimilarSymmetric(u, us[i]);
      } else {
        assert r[i] == us[i] && r[j] == us[j];
      }
    }
  }

  /** A URL matched in a list is still matched once the list has grown. */
  lemma AnySimilarExtends(us: seq<URL>, r: seq<URL>, u: URL)
    requires |us| <= |r| && us == r[..|us|] && AnySimilar(us, u)
    ensures AnySimilar(r, u)
  {
    var j :| 0 <= j < |us| && Similar(u, us[j]);
    assert r[j] == us[j];
  }

  /** After one intended step both endpoints of the link are matched. */
  lemma UniqStepIntendedCovers(us: seq<URL>, l: Link)
    ensures |us| <= |UniqStepIntended(us, l)| && us == UniqStepIntended(us, l)[..|us|]
    ensures AnySimilar(UniqStepIntended(us, l), l.from) && AnySimilar(UniqStepIntended(us, l), l.to)
  {
    var withFrom := if AnySimilar(us, l.from) then us else us + [l.from];
    var r := UniqStepIntended(us, l);
    assert withFrom == r[..|withFrom|] && us == withFrom[..|us|];
    if AnySimilar(us, l.from) {
      AnySimilarExtends(us, r, l.from);
    } else {
      assert withFrom[|us|] == l.from && Similar(l.from, l.from);
      assert AnySimilar(withFrom, l.from);
      AnySimilarExtends(withFrom, r, l.from);
    }
    if !AnySimilar(withFrom, l.to) {
      assert r[|r| - 1] == l.to && Similar(l.to, l.to);
    }
  }

  /** The intended list never holds two similar URLs. */
  lemma {:induction false} UniqIntendedDissimilar(order: seq<Link>)
    ensures PairwiseDissimilar(UniqIntended(order))
  {
    if order != [] {
      var p := order[..|order| - 1];
      var l := order[|order| - 1];
      UniqIntendedDissimilar(p);
      var us := UniqIntended(p);
      var withFrom := if AnySimilar(us, l.from) then us else us + [l.from];
      if !AnySimilar(us, l.from) {
        AppendDissimilar(us, l.from);
      }
      if !AnySimilar(withFrom, l.to) {
        AppendDissimilar(withFrom, l.to);
      }
    }
  }

  /** The intended list still matches every endpoint of the input. */
  lemma {:induction false} UniqIntendedCovers(order: seq<Link>)
    ensures forall i :: 0 <= i < |order| ==> AnySimilar(UniqIntended(order), order[i].from) && AnySimilar(UniqIntended(order), order[i].to)
  {
    if order != [] {
      var p := order[..|order| - 1];
      var l := order[|order| - 1];
      UniqIntendedCovers(p);
      var us, r := UniqIntended(p), UniqIntended(order);
      UniqStepIntendedCovers(us, l);
      forall i | 0 <= i < |p|
        ensures AnySimilar(r, order[i].from) && AnySimilar(r, order[i].to)
      {
        assert order[i] == p[i];
        AnySimilarExtends(us, r, p[i].from);
        AnySimilarExtends(us, r, p[i].to);
      }
    }
  }

  // ---------------------------------------------------------------- the summary example

  /** The links of the SummaryLink example: l2 differs from l1 in a query value only, l4 in its onclick. */
  function ExampleLinks(): (ls: seq<Link>)
    ensures |ls| == 4
  {
    var from1 := URL("http", "example.com", "", map[], "");
    var to1 := URL("http", "example.com", "", map["a1" := ["v11"]], "");
    var to2 := URL("http", "example.com", "", map["a1" := ["v12"]], "");
    var from3 := URL("http", "example.com", "/1", map[], "");
    [ Link(from1, to1, "", "", "", "", "", ""),
      Link(from1, to2, "", "", "", "", "", ""),
      Link(from3, to1, "", "", "", "", "", ""),
      Link(from1, to1, "", "javascript:void(0)", "", "", "", "") ]
  }

  lemma ExampleFacts()
    ensures var ls := ExampleLinks();
      && SimilarLink(ls[1], ls[0]) && ls[1] != ls[0]
      && !SimilarLink(ls[2], ls[0]) && !SimilarLink(ls[2], ls[1])
      && !SimilarLink(ls[3], ls[0]) && !SimilarLink(ls[3], ls[1]) && !SimilarLink(ls[3], ls[2])
  {
    var ls := ExampleLinks();
    assert ls[1].to.query["a1"] != ls[0].to.query["a1"];
  }

  /** The summary of four links of which only the second is similar to an earlier one. */
  lemma SummarizeFour(a: Link, b: Link, c: Link, d: Link)
    requires SimilarLink(b, a) && !SimilarLink(c, a) && !SimilarLink(d, a) && !SimilarLink(d, c)
    ensures Summarize([a, b, c, d]) == {a, c, d}
  {
    SummarizeAppend([], a);
    SummarizeAppend([a], b);
    SummarizeAppend([a, b], c);
    SummarizeAppend([a, b, c], d);
    assert Summarize([a]) == {a};
    assert HasSimilar({a}, b);
    assert [a] + [b] == [a, b];
    assert Summarize([a, b]) == {a};
    assert !HasSimilar({a}, c);
    assert [a, b] + [c] == [a, b, c];
    assert Summarize([a, b, c]) == {a, c};
    assert !HasSimilar({a, c}, d);
    assert [a, b, c] + [d] == [a, b, c, d];
  }

  /**
   * Visited as l1, l2, l3, l4 the summary is {l1, l3, l4}; visited as
   * l2, l1, l3, l4 it is {l2, l3, l4}. Which member of a class survives
   * depends on the map's iteration order.
   */
  lemma SummaryExample()
    ensures var ls := ExampleLinks();
      && Summarize([ls[0], ls[1], ls[2], ls[3]]) == {ls[0], ls[2], ls[3]}
      && Summarize([ls[1], ls[0], ls[2], ls[3]]) == {ls[1], ls[2], ls[3]}
  {
    var ls := ExampleLinks();
    ExampleFacts();
    SimilarLinkSymmetric(ls[0], ls[1]);
    SummarizeFour(ls[0], ls[1], ls[2], ls[3]);
    SummarizeFour(ls[1], ls[0], ls[2], ls[3]);
  }

  /** A set of representatives drawn from four links, only the first two of them similar. */
  lemma FourClasses(s: set<Link>, a: Link, b: Link, c: Link, d: Link)
    requires forall x :: x in s ==> x == a || x == b || x == c || x == d
    requires HasSimilar(s, a) && HasSimilar(s, c) && HasSimilar(s, d)
    requires !(a in s && b in s)
    requires !SimilarLink(a, c) && !SimilarLink(a, d)
    requires !SimilarLink(c, a) && !SimilarLink(c, b) && !SimilarLink(c, d)
    requires !SimilarLink(d, a) && !SimilarLink(d, b) && !SimilarLink(d, c)
    ensures s == {a, c, d} || s == {b, c, d}
  {
    var mc :| mc in s && SimilarLink(c, mc);
    assert mc == c;
    var md :| md in s && SimilarLink(d, md);
    assert md == d;
    var ma :| ma in s && SimilarLink(a, ma);
    assert ma == a || ma == b;
    if a in s {
      assert s == {a, c, d};
    } else {
      assert s == {b, c, d};
    }
  }

  /** Every link of the order has a similar representative. */
  lemma Represented(order: seq<Link>, x: Link)
    requires x in order
    ensures HasSimilar(Summarize(order), x)
  {
    SummarizeCovers(order);
    var i :| 0 <= i < |order| && order[i] == x;
  }

  /**
   * Four links of which only the first two are similar: for every order the
   * summary keeps the last two and exactly one of the first two.
   */
  lemma SummarizeFourAnyOrder(order: seq<Link>, a: Link, b: Link, c: Link, d: Link)
    requires forall x :: x in order <==> x == a || x == b || x == c || x == d
    requires SimilarLink(a, b) && a != b
    requires !SimilarLink(a, c) && !SimilarLink(a, d)
    requires !SimilarLink(c, a) && !SimilarLink(c, b) && !SimilarLink(c, d)
    requires !SimilarLink(d, a) && !SimilarLink(d, b) && !SimilarLink(d, c)
    ensures Summarize(order) == {a, c, d} || Summarize(order) == {b, c, d}
  {
    var s := Summarize(order);
    SummarizeSubset(order);
    SummarizeDistinct(order);
    assert !(a in s && b in s);
    Represented(order, a);
    Represented(order, c);
    Represented(order, d);
    FourClasses(s, a, b, c, d);
  }

  /**
   * For every visiting order the summary keeps l3 and l4 and exactly one of
   * the similar pair l1, l2: the outcome of the SummaryLink test that does
   * not depend on the map's order.
   */
  lemma SummaryExampleAnyOrder(order: seq<Link>)
    requires forall x :: x in order <==> x in ExampleLinks()
    ensures var ls := ExampleLinks();
      Summarize(order) == {ls[0], ls[2], ls[3]} || Summarize(order) == {ls[1], ls[2], ls[3]}
  {
    var ls := ExampleLinks();
    ExampleFacts();
    SimilarLinkSymmetric(ls[0], ls[1]);
    SimilarLinkSymmetric(ls[0], ls[2]);
    SimilarLinkSymmetric(ls[0], ls[3]);
    SimilarLinkSymmetric(ls[2], ls[3]);
    assert forall x :: x in ls <==> x == ls[0] || x == ls[1] || x == ls[2] || x == ls[3];
    SummarizeFourAnyOrder(order, ls[0], ls[1], ls[2], ls[3]);
  }
}
