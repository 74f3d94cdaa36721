/**
 * The discovery side of `LinkScraper`: its configuration defaults
 * (`NewLinkScraper`, goscraper.go:105-170), the login marker test `IsLogin`
 * (goscraper.go:263-268), the `OnHTML` callback (goscraper.go:196-233) and
 * the output file name (goscraper.go:325-327).
 *
 * The crawler's requests are not performed here: the callback returns the
 * requests it would hand to the crawler, in order.
 */
module Discovery {
  import opened Base
  import opened Strings
  import opened Urls
  import opened LinkSets
  import opened Extraction

  // ---------------------------------------------------------------- configuration

  /** `Config`; `links` is the optional existing `Links` map to share. */
  datatype Config = Config(
    links: Links?,
    loginURL: string,
    loginData: map<string, string>,
    entry: string,
    outFile: string,
    outType: string,
    linkSelector: string,
    isDoPost: bool,
    checkLogin: string)

  /** `&Config{}`: every field at its zero value. */
  const EmptyConfig: Config := Config(null, "", map[], "", "", "", "", false, "")

  const DefaultOutFile := "output"
  const DefaultOutType := "csv"
  const DefaultLinkSelector := "a[href],form,[onclick]"
  const DefaultCheckLogin := "loggedin"

  /**
   * The settings `NewLinkScraper` derives from its (possibly nil) config:
   * the four string options fall back to their defaults when empty, every
   * other field is taken as given.
   */
  function WithDefaults(config: Option<Config>): (c: Config)
    ensures c.outFile != "" && c.outType != "" && c.linkSelector != "" && c.checkLogin != ""
    ensures config.None? ==> c == EmptyConfig.(outFile := DefaultOutFile, outType := DefaultOutType,
                                               linkSelector := DefaultLinkSelector, checkLogin := DefaultCheckLogin)
    ensures config.Some? ==>
      var g := config.value;
      && c.links == g.links && c.loginURL == g.loginURL && c.loginData == g.loginData
      && c.entry == g.entry && c.isDoPost == g.isDoPost
      && (g.outFile != "" ==> c.outFile == g.outFile)
      && (g.outType != "" ==> c.outType == g.outType)
      && (g.linkSelector != "" ==> c.linkSelector == g.linkSelector)
      && (g.checkLogin != "" ==> c.checkLogin == g.checkLogin)
      && (g.outFile == "" ==> c.outFile == DefaultOutFile)
      && (g.outType == "" ==> c.outType == DefaultOutType)
      && (g.linkSelector == "" ==> c.linkSelector == DefaultLinkSelector)
      && (g.checkLogin == "" ==> c.checkLogin == DefaultCheckLogin)
  {
    var g := if config.Some? then config.value else EmptyConfig;
    g.(outFile := if g.outFile == "" then DefaultOutFile else g.outFile,
       outType := if g.outType == "" then DefaultOutType else g.outType,
       linkSelector := if g.linkSelector == "" then DefaultLinkSelector else g.linkSelector,
       checkLogin := if g.checkLogin == "" then DefaultCheckLogin else g.checkLogin)
  }

  /** Defaulting a defaulted configuration changes nothing. */
  lemma WithDefaultsIdempotent(config: Option<Config>)
    ensures WithDefaults(Some(WithDefaults(config))) == WithDefaults(config)
  {
  }

  /** `MakeOutFilename`: `<outfile>_<stamp>.<outtype>`, the stamp being the clock as `20060102150405`. */
  function MakeOutFilename(outFile: string, outType: string, stamp: string): (name: string)
    ensures |name| == |outFile| + |stamp| + |outType| + 2
    ensures name[..|outFile| + 1] == outFile + "_"
    ensures name[|outFile| + 1..|outFile| + 1 + |stamp|] == stamp
    ensures name[|name| - |outType| - 1..] == "." + outType
  {
    outFile + "_" + stamp + "." + outType
  }

  /** Two output names with the same stamp and type come from the same base name. */
  lemma {:induction false} MakeOutFilenameInjective(f1: string, f2: string, outType: string, stamp: string)
    requires MakeOutFilename(f1, outType, stamp) == MakeOutFilename(f2, outType, stamp)
    ensures f1 == f2
  {
    var n := MakeOutFilename(f1, outType, stamp);
    assert |f1| == |f2|;
    assert f1 == (f1 + "_")[..|f1|] == n[..|f1| + 1][..|f1|] == (f2 + "_")[..|f2|] == f2;
  }

  // ---------------------------------------------------------------- login marker

  /** `IsLogin`: the response body contains the logged-in marker. */
  function IsLogin(body: string, checkLogin: string): (loggedIn: bool)
    ensures loggedIn <==> exists i :: OccursAt(body, checkLogin, i)
  {
    Index(body, checkLogin) > -1
  }

  // ---------------------------------------------------------------- POST parameters

  /** An `input` whose value is posted: its type is not a button type. */
  predicate Submits(c: Control) {
    Attr(c.attrs, "type") !in FormTypeBtn
  }

  /** The `param` map built from `inputs`, a later name overwriting an earlier one. */
  function ParamsOf(inputs: seq<Control>): map<string, string> {
    if inputs == [] then map[]
    else
      var p := ParamsOf(inputs[..|inputs| - 1]);
      var c := inputs[|inputs| - 1];
      if Submits(c) then p[Attr(c.attrs, "name") := Attr(c.attrs, "value")] else p
  }

  /** The keys are exactly the names of the submitted inputs. */
  lemma {:induction false} ParamsOfKeys(inputs: seq<Control>)
    ensures forall k :: k in ParamsOf(inputs) <==>
      exists i :: 0 <= i < |inputs| && Submits(inputs[i]) && Attr(inputs[i].attrs, "name") == k
  {
    if inputs != [] {
      var p := inputs[..|inputs| - 1];
      ParamsOfKeys(p);
      forall k | k in ParamsOf(p)
        ensures exists i :: 0 <= i < |inputs| && Submits(inputs[i]) && Attr(inputs[i].attrs, "name") == k
      {
        var i :| 0 <= i < |p| && Submits(p[i]) && Attr(p[i].attrs, "name") == k;
        assert inputs[i] == p[i];
      }
      forall k, i | 0 <= i < |inputs| && Submits(inputs[i]) && Attr(inputs[i].attrs, "name") == k
        ensures k in ParamsOf(inputs)
      {
        if i < |p| {
          assert p[i] == inputs[i];
        }
      }
    }
  }

  /** A name's value comes from the last submitted input carrying that name. */
  lemma {:induction false} ParamsOfLastWins(inputs: seq<Control>, i: nat)
    requires i < |inputs| && Submits(inputs[i])
    requires forall j :: i < j < |inputs| && Submits(inputs[j]) ==>
      Attr(inputs[j].attrs, "name") != Attr(inputs[i].attrs, "name")
    ensures Attr(inputs[i].attrs, "name") in ParamsOf(inputs)
    ensures ParamsOf(inputs)[Attr(inputs[i].attrs, "name")] == Attr(inputs[i].attrs, "value")
  {
    if i < |inputs| - 1 {
      var p := inputs[..|inputs| - 1];
      assert forall j :: i < j < |p| ==> p[j] == inputs[j];
      ParamsOfLastWins(p, i);
    }
  }

  /** The `e.ForEach("input", ...)` loop that fills `param` in place. */
  method CollectParams(inputs: seq<Control>) returns (param: map<string, string>)
    ensures param == ParamsOf(inputs)
  {
    param := map[];
    for i := 0 to |inputs|
      invariant param == ParamsOf(inputs[..i])
    {
      assert inputs[..i + 1][..i] == inputs[..i];
      var c := inputs[i];
      if !(Attr(c.attrs, "type") in FormTypeBtn) {
        param := param[Attr(c.attrs, "name") := Attr(c.attrs, "value")];
      }
    }
    assert inputs[..|inputs|] == inputs;
  }

  // ---------------------------------------------------------------- dispatch

  /** A request handed to the crawler. */
  datatype Request = Get(url: string) | Post(url: string, params: map<string, string>)

  /** What one `OnHTML` call does with the element it is given. */
  datatype Outcome =
    | InvalidLink              // E2Link failed: nothing further
    | AlreadyExists            // Add refused the link
    | NotVisited               // a `javascript:` target that is not posted
    | Requested(requests: seq<Request>)

  const ScriptScheme := "javascript:"

  /** `target` holds `javascript:` at `k`, with only white space before it. */
  predicate ScriptAt(target: string, k: nat) {
    && k + |ScriptScheme| <= |target|
    && target[k..k + |ScriptScheme|] == ScriptScheme
    && forall i :: 0 <= i < k ==> IsSpace(target[i])
  }

  /** Trailing white space never reaches into the `javascript:` prefix. */
  lemma TrimRightKeepsScheme(r: string)
    ensures HasPrefix(TrimRight(r), ScriptScheme) <==> HasPrefix(r, ScriptScheme)
  {
    var n := |TrimRight(r)|;
    if HasPrefix(r, ScriptScheme) {
      assert r[10] == ':' && !IsSpace(r[10]);
      assert n > 10;
      assert TrimRight(r)[..|ScriptScheme|] == r[..|ScriptScheme|];
    }
    if HasPrefix(TrimRight(r), ScriptScheme) {
      assert TrimRight(r)[..|ScriptScheme|] == r[..|ScriptScheme|];
    }
  }

  /** A scheme after leading white space starts exactly where `TrimLeft` stops. */
  lemma ScriptAtTrimLeft(target: string, k: nat)
    requires ScriptAt(target, k)
    ensures HasPrefix(TrimLeft(target), ScriptScheme)
  {
    var r := TrimLeft(target);
    var k0 := |target| - |r|;
    assert target[k..k + |ScriptScheme|][0] == 'j';
    assert !IsSpace(target[k]);
    assert k0 <= k;
    assert r[0] == target[k0];
    assert k == k0;
    assert r[..|ScriptScheme|] == target[k..k + |ScriptScheme|];
  }

  /** The `TrimSpace`/`HasPrefix` test finds a scheme after leading white space. */
  lemma ScriptTargetAt(target: string)
    ensures HasPrefix(TrimSpace(target), ScriptScheme) <==> exists k: nat :: ScriptAt(target, k)
  {
    var r := TrimLeft(target);
    var k0 := |target| - |r|;
    TrimRightKeepsScheme(r);
    if HasPrefix(r, ScriptScheme) {
      assert target[k0..k0 + |ScriptScheme|] == r[..|ScriptScheme|];
      assert ScriptAt(target, k0);
    }
    if exists k: nat :: ScriptAt(target, k) {
      var k: nat :| ScriptAt(target, k);
      ScriptAtTrimLeft(target, k);
    }
  }

  /** The target is an inline script: `javascript:` after trimming white space. */
  function IsScriptTarget(target: string): (b: bool)
    ensures b <==> exists k: nat :: ScriptAt(target, k)
  {
    ScriptTargetAt(target);
    HasPrefix(TrimSpace(target), ScriptScheme)
  }

  /** Leading white space does not hide a script target. */
  lemma {:induction false} TrimLeftSkipsSpace(ws: string, t: string)
    requires forall i :: 0 <= i < |ws| ==> IsSpace(ws[i])
    ensures TrimLeft(ws + t) == TrimLeft(t)
  {
    if ws != [] {
      var s := ws + t;
      assert s[0] == ws[0] && IsSpace(s[0]);
      assert TrimLeft(s) == TrimLeft(s[1..]);
      assert s[1..] == ws[1..] + t;
      TrimLeftSkipsSpace(ws[1..], t);
    } else {
      assert ws + t == t;
    }
  }

  lemma IsScriptTargetIgnoresLeadingSpace(ws: string, t: string)
    requires forall i :: 0 <= i < |ws| ==> IsSpace(ws[i])
    ensures IsScriptTarget(ws + t) <==> IsScriptTarget(t)
  {
    TrimLeftSkipsSpace(ws, t);
  }

  /** The login post that precedes the action when the body lacks the marker. */
  function Relogin(loggedIn: bool, loginURL: string, loginData: map<string, string>): (rs: seq<Request>)
    ensures |rs| <= 1
    ensures rs == [] <==> loggedIn
    ensures forall i :: 0 <= i < |rs| ==> rs[i] == Post(loginURL, loginData)
  {
    if loggedIn then [] else [Post(loginURL, loginData)]
  }

  /**
   * The decision `OnHTML` takes for a built link, once `Add` has answered
   * `added`: post the form's parameters, visit the target, or leave it.
   */
  function Dispatch(l: Link, added: bool, isDoPost: bool, loggedIn: bool, params: map<string, string>,
                    loginURL: string, loginData: map<string, string>, render: URL -> string): (out: Outcome)
    ensures out != InvalidLink
    ensures !added <==> out == AlreadyExists
    ensures added && out != NotVisited ==> out.Requested?
    ensures out == NotVisited <==>
      added && !(isDoPost && l.httpMethod == "POST") && IsScriptTarget(render(l.to))
    ensures out.Requested? ==>
      var rs := out.requests;
      && |rs| == (if loggedIn then 1 else 2)
      && (!loggedIn ==> rs[0] == Post(loginURL, loginData))
      && rs[|rs| - 1].url == render(l.to)
      && (rs[|rs| - 1].Post? <==> isDoPost && l.httpMethod == "POST")
      && (rs[|rs| - 1].Post? ==> rs[|rs| - 1].params == params)
      && (rs[|rs| - 1].Get? ==> !IsScriptTarget(render(l.to)))
  {
    if !added then AlreadyExists
    else if isDoPost && l.httpMethod == "POST" then
      Requested(Relogin(loggedIn, loginURL, loginData) + [Post(render(l.to), params)])
    else if !IsScriptTarget(render(l.to)) then
      Requested(Relogin(loggedIn, loginURL, loginData) + [Get(render(l.to))])
    else NotVisited
  }

  /** A form posted with `isdopost` is submitted even when its action is a script. */
  lemma ScriptFormIsPosted(l: Link, loggedIn: bool, params: map<string, string>,
                           loginURL: string, loginData: map<string, string>, render: URL -> string)
    requires l.httpMethod == "POST" && IsScriptTarget(render(l.to))
    ensures Dispatch(l, true, true, loggedIn, params, loginURL, loginData, render).Requested?
  {
  }

  // ---------------------------------------------------------------- the scraper

  /** The `LinkScraper` state the callback uses; crawler and logger are not modelled. */
  class LinkScraper {
    const links: Links
    const loginURL: string
    const loginData: map<string, string>
    const entry: string
    const outFile: string
    const outType: string
    const linkSelector: string
    const isDoPost: bool
    const checkLogin: string

    /** `NewLinkScraper`: applies the defaults and shares the given map, or makes an empty one. */
    constructor (config: Option<Config>)
      ensures var c := WithDefaults(config);
        && loginURL == c.loginURL && loginData == c.loginData && entry == c.entry
        && outFile == c.outFile && outType == c.outType && linkSelector == c.linkSelector
        && isDoPost == c.isDoPost && checkLogin == c.checkLogin
        && (c.links != null ==> links == c.links)
        && (c.links == null ==> fresh(links) && links.links == {})
    {
      var c := WithDefaults(config);
      if c.links == null {
        links := new Links();
      } else {
        links := c.links;
      }
      loginURL, loginData, entry := c.loginURL, c.loginData, c.entry;
      outFile, outType, linkSelector := c.outFile, c.outType, c.linkSelector;
      isDoPost, checkLogin := c.isDoPost, c.checkLogin;
    }

    /**
     * The `OnHTML` callback: builds the link, stamps it with the selector,
     * adds it, and on success posts or visits its target, preceded by one
     * login post when the response lacks the logged-in marker.
     */
    method OnHTML(e: Element, resolve: string -> Option<URL>, render: URL -> string) returns (out: Outcome)
      modifies links
      ensures BuildLink(e, resolve).Failure? ==> out == InvalidLink && links.links == old(links.links)
      ensures BuildLink(e, resolve).Success? ==>
        var l := BuildLink(e, resolve).value.(selector := linkSelector);
        var added := render(l.from) != render(l.to) && l !in old(links.links);
        && links.links == (if added then old(links.links) + {l} else old(links.links))
        && out == Dispatch(l, added, isDoPost, IsLogin(e.body, checkLogin), ParamsOf(e.inputs),
                           loginURL, loginData, render)
    {
      var r := E2Link(e, resolve);
      if r.Failure? {
        return InvalidLink;
      }
      var link := r.value.(selector := linkSelector);
      var ok := links.Add(link, render);
      var loggedIn := IsLogin(e.body, checkLogin);
      ghost var relogin := Relogin(loggedIn, loginURL, loginData);
      if ok {
        if isDoPost && link.httpMethod == "POST" {
          var param := CollectParams(e.inputs);
          var requests := [];
          if !loggedIn {
            requests := requests + [Post(loginURL, loginData)];
          }
          assert requests == relogin;
          out := Requested(requests + [Post(render(link.to), param)]);
          assert out == Dispatch(link, ok, isDoPost, loggedIn, ParamsOf(e.inputs), loginURL, loginData, render);
          return;
        }
        if !HasPrefix(TrimSpace(render(link.to)), "javascript:") {
          var requests := [];
          if !loggedIn {
            requests := requests + [Post(loginURL, loginData)];
          }
          assert requests == relogin;
          out := Requested(requests + [Get(render(link.to))]);
          assert out == Dispatch(link, ok, isDoPost, loggedIn, ParamsOf(e.inputs), loginURL, loginData, render);
          return;
        }
        return NotVisited;
      } else {
        return AlreadyExists;
      }
    }
  }
}
