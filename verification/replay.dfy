/**
 * The pure parts of the replay through a browser: the click target chosen
 * for a link (`Link2Click`, goscraper.go:608-619), the browse id
 * (`makeBrowseId`, goscraper.go:649-653), the marker queries and log window
 * that bind a replay to the MySQL general log (goscraper.go:578, 586,
 * 621-631), and the batch loop `BrowseLinks` (goscraper.go:544-563).
 */
module Replay {
  import opened Base
  import opened Strings
  import opened LinkSets
  import opened Summaries

  // ---------------------------------------------------------------- click target

  /** How the element to click is found inside the page body. */
  datatype Click =
    | FindByID(id: string)
    | FirstByLink(linkText: string)
    | FirstByButton(buttonText: string)
    | FindByName(name: string)

  /** The string the chosen finder looks for. */
  function Key(c: Click): string {
    match c
    case FindByID(id) => id
    case FirstByLink(t) => t
    case FirstByButton(t) => t
    case FindByName(n) => n
  }

  /** `Link2Click`: by id when the link has one; else by link text for `a`, by button text for `form`, by name otherwise. */
  function Link2Click(l: Link): (c: Click)
    ensures c.FindByID? <==> l.attrId != ""
    ensures c.FirstByLink? <==> l.attrId == "" && l.tag == "a"
    ensures c.FirstByButton? <==> l.attrId == "" && l.tag == "form"
    ensures c.FindByName? <==> l.attrId == "" && l.tag != "a" && l.tag != "form"
    ensures Key(c) == if l.attrId != "" then l.attrId else l.text
  {
    if l.attrId != "" then FindByID(l.attrId)
    else if l.tag == "a" then FirstByLink(l.text)
    else if l.tag == "form" then FirstByButton(l.text)
    else FindByName(l.text)
  }

  // ---------------------------------------------------------------- browse id

  /** `rLetters`. */
  const Letters: string := "abcdefghijklmnopqrstuvwxyzABCDEFGHIJKLMNOPQRSTUVWXYZ"

  predicate IsDigit(c: char) {
    '0' <= c <= '9'
  }

  /** The clock formatted as `20060102150405`: year, month, day, hour, minute, second. */
  predicate IsClock(clock: string) {
    |clock| == 14 && forall i :: 0 <= i < 14 ==> IsDigit(clock[i])
  }

  /** `makeBrowseId`: the clock digits followed by the letter `rand.Intn(52)` picked. */
  function MakeBrowseId(clock: string, pick: nat): (bid: string)
    requires IsClock(clock) && pick < |Letters|
    ensures |bid| == 15 && bid[..14] == clock && bid[14] == Letters[pick]
    ensures forall i :: 0 <= i < 14 ==> IsDigit(bid[i])
  {
    clock + [Letters[pick]]
  }

  /**
   * Two browse ids collide exactly when they were made in the same second
   * and drew the same letter.
   */
  lemma BrowseIdCollision(c1: string, p1: nat, c2: string, p2: nat)
    requires IsClock(c1) && p1 < |Letters| && IsClock(c2) && p2 < |Letters|
    ensures MakeBrowseId(c1, p1) == MakeBrowseId(c2, p2) <==> c1 == c2 && Letters[p1] == Letters[p2]
  {
    var b1, b2 := MakeBrowseId(c1, p1), MakeBrowseId(c2, p2);
    if b1 == b2 {
      assert c1 == b1[..14] == b2[..14] == c2;
      assert Letters[p1] == b1[14] == b2[14] == Letters[p2];
    }
  }

  // ---------------------------------------------------------------- log correlation

  const MarkerHead := "SELECT 1 FROM DUAL -- "

  /**
   * The marker query sent before the click: a no-op statement whose comment
   * ends with the browse id, so the general log records the id.
   */
  function StartQuery(bid: string): (q: string)
    ensures HasPrefix(q, MarkerHead)
    ensures |q| >= |bid| && q[|q| - |bid|..] == bid
    ensures Contains(q, bid)
  {
    ContainsInfix("SELECT 1 FROM DUAL -- start browse: ", bid, "");
    assert "SELECT 1 FROM DUAL -- start browse: " + bid + "" == "SELECT 1 FROM DUAL -- start browse: " + bid;
    "SELECT 1 FROM DUAL -- start browse: " + bid
  }

  /** The marker query sent after the click, built the same way. */
  function EndQuery(bid: string): (q: string)
    ensures HasPrefix(q, MarkerHead)
    ensures |q| >= |bid| && q[|q| - |bid|..] == bid
    ensures Contains(q, bid)
  {
    ContainsInfix("SELECT 1 FROM DUAL -- end browse: ", bid, "");
    assert "SELECT 1 FROM DUAL -- end browse: " + bid + "" == "SELECT 1 FROM DUAL -- end browse: " + bid;
    "SELECT 1 FROM DUAL -- end browse: " + bid
  }

  /** The two markers of one replay are different statements. */
  lemma MarkersDiffer(bid: string)
    ensures StartQuery(bid) != EndQuery(bid)
  {
    assert StartQuery(bid)[22] == 's' && EndQuery(bid)[22] == 'e';
  }

  /** The lower bound `event_time > '<yyyy>/<mm>/<dd> <hh>:<mi>'` of the general-log query. */
  function LogWindowStart(bid: string): (w: string)
    requires |bid| >= 12
    ensures |w| == 16
    ensures w[4] == '/' && w[7] == '/' && w[10] == ' ' && w[13] == ':'
  {
    bid[0..4] + "/" + bid[4..6] + "/" + bid[6..8] + " " + bid[8..10] + ":" + bid[10..12]
  }

  /** The pattern of `argument like '%<bid>%'`. */
  function LikePattern(bid: string): (p: string)
    ensures |p| == |bid| + 2 && p[0] == '%' && p[|p| - 1] == '%'
    ensures p[1..|p| - 1] == bid
  {
    "%" + bid + "%"
  }

  /**
   * `LIKE '%x%'` for an `x` without wildcards (a browse id is letters and
   * digits): the statement contains `x`.
   */
  predicate LikeMatches(statement: string, pattern: string)
    requires |pattern| >= 2 && pattern[0] == '%' && pattern[|pattern| - 1] == '%'
  {
    Contains(statement, pattern[1..|pattern| - 1])
  }

  /** The window keeps the id's date, hour and minute and drops its seconds and letter. */
  lemma LogWindowIsMinute(clock: string, pick: nat)
    requires IsClock(clock) && pick < |Letters|
    ensures LogWindowStart(MakeBrowseId(clock, pick)) ==
      clock[0..4] + "/" + clock[4..6] + "/" + clock[6..8] + " " + clock[8..10] + ":" + clock[10..12]
  {
    var bid := MakeBrowseId(clock, pick);
    assert bid[..14] == clock;
    assert bid[0..4] == clock[0..4] && bid[4..6] == clock[4..6] && bid[6..8] == clock[6..8];
    assert bid[8..10] == clock[8..10] && bid[10..12] == clock[10..12];
  }

  /** Ids made within the same minute share their log window. */
  lemma LogWindowSameMinute(c1: string, p1: nat, c2: string, p2: nat)
    requires IsClock(c1) && p1 < |Letters| && IsClock(c2) && p2 < |Letters|
    requires c1[..12] == c2[..12]
    ensures LogWindowStart(MakeBrowseId(c1, p1)) == LogWindowStart(MakeBrowseId(c2, p2))
  {
    LogWindowIsMinute(c1, p1);
    LogWindowIsMinute(c2, p2);
    assert c1[0..4] == c1[..12][0..4] == c2[..12][0..4] == c2[0..4];
    assert c1[4..6] == c1[..12][4..6] == c2[..12][4..6] == c2[4..6];
    assert c1[6..8] == c1[..12][6..8] == c2[..12][6..8] == c2[6..8];
    assert c1[8..10] == c1[..12][8..10] == c2[..12][8..10] == c2[8..10];
    assert c1[10..12] == c1[..12][10..12] == c2[..12][10..12] == c2[10..12];
  }

  /** Both marker statements of a replay match that replay's LIKE pattern. */
  lemma MarkersMatchPattern(bid: string)
    ensures LikeMatches(StartQuery(bid), LikePattern(bid))
    ensures LikeMatches(EndQuery(bid), LikePattern(bid))
  {
    var pattern := LikePattern(bid);
    assert pattern[1..|pattern| - 1] == bid;
  }

  // ---------------------------------------------------------------- the batch

  /**
   * `BrowseLinks`: replays the links one by one in the map's order and
   * returns at the first one whose replay fails. `browse` stands for
   * `BrowseLink` with its driver and database.
   */
  method BrowseLinks(input: Links, browse: Link -> Result<string, string>)
    returns (ids: seq<string>, err: Option<string>, ghost order: seq<Link>)
    ensures forall i, j :: 0 <= i < j < |order| ==> order[i] != order[j]
    ensures forall i :: 0 <= i < |order| ==> order[i] in input.links
    ensures forall i :: 0 <= i < |ids| ==> i < |order| && browse(order[i]) == Success(ids[i])
    ensures err.None? ==> |ids| == |order| && Enumerates(order, input.links)
    ensures err.Some? ==> |order| == |ids| + 1 && browse(order[|ids|]) == Failure(err.value)
    ensures err.None? ==> |ids| == |input.links|
    ensures err.Some? ==> |ids| < |input.links|
    ensures forall k :: 0 <= k < |ids| ==> exists l :: l in input.links && browse(l) == Success(ids[k])
    ensures err.Some? ==> exists l :: l in input.links && browse(l) == Failure(err.value)
  {
    ids, err, order := [], None, [];
    var rest := input.links;
    while rest != {}
      invariant rest <= input.links
      invariant forall x :: x in input.links <==> x in rest || x in order
      invariant forall x :: x in rest ==> x !in order
      invariant forall i, j :: 0 <= i < j < |order| ==> order[i] != order[j]
      invariant |ids| == |order|
      invariant |order| + |rest| == |input.links|
      invariant forall i :: 0 <= i < |ids| ==> browse(order[i]) == Success(ids[i])
      decreases rest
    {
      var link :| link in rest;
      order := order + [link];
      var r := browse(link);
      if r.Failure? {
        assert |rest| >= 1 by { assert link in rest; }
        return ids, Some(r.error), order;
      }
      ids := ids + [r.value];
      rest := rest - {link};
    }
  }
}
