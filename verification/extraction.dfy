/**
 * `E2Link` (goscraper.go:270-323): turns one matched HTML element into a
 * `Link`. The element's request context supplies the page URL; resolving a
 * raw URL against the request and parsing it (`AbsoluteURL` then
 * `url.Parse`) is the partial function `resolve`, whose `None` is the parse
 * error.
 */
module Extraction {
  import opened Base
  import opened Strings
  import opened Urls
  import opened LinkSets

  /** A descendant control of a form: its tag name and attributes. */
  datatype Control = Control(name: string, attrs: map<string, string>)

  /**
   * What the crawler hands the `OnHTML` callback: the element's tag name,
   * attributes and text, the page URL stored in the request context, the
   * descendants matching `input[type],button` (`controls`) and `input`
   * (`inputs`), and the body of the response the element came from.
   */
  datatype Element = Element(
    name: string,
    attrs: map<string, string>,
    text: string,
    pageURL: string,
    controls: seq<Control>,
    inputs: seq<Control>,
    body: string)

  datatype LinkError = InvalidFrom(raw: string) | InvalidTo(raw: string)

  /** `Attr`: the attribute's value, or "" when it is absent. */
  function Attr(attrs: map<string, string>, key: string): string {
    if key in attrs then attrs[key] else ""
  }

  /** `FormTypeBtn`: the input types that make an input act as a button. */
  const FormTypeBtn: set<string> := {"submit", "image", "reset", "button"}

  predicate IsButtonLike(c: Control) {
    c.name == "button" || Attr(c.attrs, "type") in FormTypeBtn
  }

  /** The label a button-like control offers: value, else alt, else name, else "". */
  function ControlLabel(c: Control): string {
    if Attr(c.attrs, "value") != "" then Attr(c.attrs, "value")
    else if Attr(c.attrs, "alt") != "" then Attr(c.attrs, "alt")
    else Attr(c.attrs, "name")
  }

  /** A control that overwrites the form's text when the closure visits it. */
  predicate Labels(c: Control) {
    IsButtonLike(c) && ControlLabel(c) != ""
  }

  /** The text left after the closure has visited `controls` in order, starting from `init`. */
  function FormText(controls: seq<Control>, init: string): string {
    if controls == [] then init
    else
      var c := controls[|controls| - 1];
      if Labels(c) then ControlLabel(c) else FormText(controls[..|controls| - 1], init)
  }

  /** The form's text is the label of the LAST labelling control. */
  lemma {:induction false} FormTextIsLastLabel(controls: seq<Control>, init: string, i: nat)
    requires i < |controls| && Labels(controls[i])
    requires forall j :: i < j < |controls| ==> !Labels(controls[j])
    ensures FormText(controls, init) == ControlLabel(controls[i])
  {
    if i < |controls| - 1 {
      var p := controls[..|controls| - 1];
      assert forall j :: i < j < |p| ==> p[j] == controls[j];
      FormTextIsLastLabel(p, init, i);
    }
  }

  /** Without a labelling control the element text is kept. */
  lemma {:induction false} FormTextDefault(controls: seq<Control>, init: string)
    requires forall j :: 0 <= j < |controls| ==> !Labels(controls[j])
    ensures FormText(controls, init) == init
  {
    if controls != [] {
      FormTextDefault(controls[..|controls| - 1], init);
    }
  }

  /** Two submit buttons "Save" then "Cancel": the form is labelled "Cancel". */
  lemma FormTextLastButtonWins(init: string)
    ensures FormText([Control("input", map["type" := "submit", "value" := "Save"]),
                      Control("input", map["type" := "submit", "value" := "Cancel"])], init) == "Cancel"
  {
    var cs := [Control("input", map["type" := "submit", "value" := "Save"]),
               Control("input", map["type" := "submit", "value" := "Cancel"])];
    assert Labels(cs[1]);
    FormTextIsLastLabel(cs, init, 1);
  }

  /** The raw target: `action` when set, else `href` when set, else "". */
  function RawTarget(attrs: map<string, string>): (t: string)
    ensures Attr(attrs, "action") != "" ==> t == Attr(attrs, "action")
    ensures Attr(attrs, "action") == "" && Attr(attrs, "href") != "" ==> t == Attr(attrs, "href")
    ensures t == "" <==> Attr(attrs, "action") == "" && Attr(attrs, "href") == ""
  {
    if Attr(attrs, "action") != "" then Attr(attrs, "action")
    else if Attr(attrs, "href") != "" then Attr(attrs, "href")
    else ""
  }

  /** The HTTP method: the `method` attribute upper-cased, or GET when it is absent. */
  function MethodOf(attrs: map<string, string>): (m: string)
    ensures m != "" && forall i :: 0 <= i < |m| ==> !('a' <= m[i] <= 'z')
    ensures Attr(attrs, "method") == "" ==> m == "GET"
    ensures Attr(attrs, "method") != "" ==> |m| == |Attr(attrs, "method")|
    ensures Attr(attrs, "method") != "" ==>
      forall i :: 0 <= i < |m| ==> m[i] == UpperChar(Attr(attrs, "method")[i])
  {
    if Attr(attrs, "method") != "" then ToUpper(Attr(attrs, "method")) else "GET"
  }

  /** A form written `method="post"` is a POST link, whatever the letter case. */
  lemma MethodOfPost(attrs: map<string, string>)
    requires Attr(attrs, "method") in {"post", "Post", "POST"}
    ensures MethodOf(attrs) == "POST"
  {
    var a := Attr(attrs, "method");
    var m := MethodOf(attrs);
    assert m[0] == UpperChar(a[0]) && m[1] == UpperChar(a[1]);
    assert m[2] == UpperChar(a[2]) && m[3] == UpperChar(a[3]);
  }

  /** The link text: a form's `name`, else its last button label; any other element's text. */
  function LinkText(e: Element): string {
    if e.name != "form" then e.text
    else if Attr(e.attrs, "name") != "" then Attr(e.attrs, "name")
    else FormText(e.controls, e.text)
  }

  /** The result of `E2Link`, as a value. */
  function BuildLink(e: Element, resolve: string -> Option<URL>): Result<Link, LinkError> {
    match resolve(e.pageURL)
    case None => Failure(InvalidFrom(e.pageURL))
    case Some(from) =>
      var rawTo := RawTarget(e.attrs);
      match resolve(rawTo)
      case None => Failure(InvalidTo(rawTo))
      case Some(to) =>
        Success(Link(from, to, Attr(e.attrs, "id"), Attr(e.attrs, "onclick"),
                     LinkText(e), e.name, MethodOf(e.attrs), ""))
  }

  /**
   * `E2Link`: resolves the page URL and the raw target, fails on the first
   * one that does not parse, and otherwise builds the link; for a form
   * without a name the text is overwritten by every labelling control in
   * turn.
   */
  method E2Link(e: Element, resolve: string -> Option<URL>) returns (r: Result<Link, LinkError>)
    ensures r == BuildLink(e, resolve)
    ensures r.Failure? <==> resolve(e.pageURL).None? || resolve(RawTarget(e.attrs)).None?
    ensures resolve(e.pageURL).None? ==> r == Failure(InvalidFrom(e.pageURL))
    ensures r.Success? ==>
      && r.value.from == resolve(e.pageURL).value
      && r.value.to == resolve(RawTarget(e.attrs)).value
      && r.value.httpMethod == MethodOf(e.attrs)
      && r.value.text == LinkText(e)
      && r.value.tag == e.name
      && r.value.attrId == Attr(e.attrs, "id")
      && r.value.attrOnClick == Attr(e.attrs, "onclick")
  {
    var from := resolve(e.pageURL);
    if from.None? {
      return Failure(InvalidFrom(e.pageURL));
    }
    var rawTo := "";
    if Attr(e.attrs, "action") != "" {
      rawTo := Attr(e.attrs, "action");
    } else if Attr(e.attrs, "href") != "" {
      rawTo := Attr(e.attrs, "href");
    }
    var to := resolve(rawTo);
    if to.None? {
      return Failure(InvalidTo(rawTo));
    }
    var httpMethod;
    if Attr(e.attrs, "method") != "" {
      httpMethod := ToUpper(Attr(e.attrs, "method"));
    } else {
      httpMethod := "GET";
    }
    var text := e.text;
    if e.name == "form" {
      if Attr(e.attrs, "name") != "" {
        text := Attr(e.attrs, "name");
      } else {
        for i := 0 to |e.controls|
          invariant text == FormText(e.controls[..i], e.text)
        {
          var c := e.controls[i];
          assert e.controls[..i + 1][..i] == e.controls[..i];
          if c.name == "button" || Attr(c.attrs, "type") in FormTypeBtn {
            if Attr(c.attrs, "value") != "" {
              text := Attr(c.attrs, "value");
            } else if Attr(c.attrs, "alt") != "" {
              text := Attr(c.attrs, "alt");
            } else if Attr(c.attrs, "name") != "" {
              text := Attr(c.attrs, "name");
            }
          }
        }
        assert e.controls[..|e.controls|] == e.controls;
      }
    }
    r := Success(Link(from.value, to.value, Attr(e.attrs, "id"), Attr(e.attrs, "onclick"),
                      text, e.name, httpMethod, ""));
  }
}
