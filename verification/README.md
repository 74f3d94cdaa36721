# goscraper link model in Dafny

goscraper explores a web application from an entry URL. It records every
navigable or submittable action it finds as a `Link`: a hyperlink, a form
or an element with an `onclick` handler. It keeps links in a `Links` set
with exact de-duplication. It can reduce that set to one link per
similarity class, or to a list of distinct endpoints. Afterwards it replays
each link in a browser and ties each replay to the MySQL general log
through a browse id.

This project models the logic of `goscraper.go` that sits between the
crawler and the replay:

- `urls.dfy` (`Urls`): the URL record and the similarity test `isSimilerURL`.
- `links.dfy` (`LinkSets`): `Link` and the `Links` set as a class whose
  methods `Add` and `addNotSimiler` update it in place.
- `summaries.dfy` (`Summaries`): `SummaryLink` and `UniqURL`.
  - Go visits a map in an unspecified order. So these methods pick each
    next key nondeterministically and return, as a ghost sequence, the
    order they used.
  - The specification functions `Summarize` and `Uniq` take that order.
    Every lemma about them holds for every order.
- `extraction.dfy` (`Extraction`): `E2Link`, which turns an HTML element
  into a link.
- `discovery.dfy` (`Discovery`): the `NewLinkScraper` defaults, `IsLogin`,
  the `OnHTML` callback with its parameter collection, and
  `MakeOutFilename`.
- `replay.dfy` (`Replay`): `Link2Click`, the browse id, the marker queries,
  the general-log window and the batch loop of `BrowseLinks`.
- `strings.dfy` (`Strings`) and `base.dfy` (`Base`): the parts of Go's
  `strings` package that are used, plus Option/Result.

Three operations of the Go code are parameters of the model:

- `url.URL.String()` is `render: URL -> string`.
- `Request.AbsoluteURL` followed by `url.Parse` is
  `resolve: string -> Option<URL>`. Its `None` is the parse error.
- The clock digits and the random letter index are arguments.

Some behaviours of the code that the model keeps as written:

- A form without a `name` takes the label of its last button-like
  control, because the closure at goscraper.go:298-309 overwrites `text`
  for each control (`Extraction.FormTextLastButtonWins`).
- `BrowseLinks` returns at the first link whose replay fails
  (goscraper.go:557-558), so the links after it are not replayed.
- With `isdopost`, a POST form is submitted even when its target is a
  `javascript:` URL, because the POST branch at goscraper.go:205-218 comes
  before the `javascript:` test (`Discovery.ScriptFormIsPosted`).
- When the response lacks the logged-in marker, one login POST is issued
  before the action (goscraper.go:213-215 and 221-223). The action is not
  retried.

## Model

| member | source | states |
|---|---|---|
| `Urls.IsSimilarURL` | goscraper.go:477-497 | returns true exactly when host and path are equal and the two query key sets are equal; it compares sizes first, then looks up each key of the first query in the second |
| `Urls.SimilarReflexive` | goscraper.go:477-497 | every URL is similar to itself |
| `Urls.SimilarSymmetric` | goscraper.go:477-497 | similarity does not depend on argument order |
| `Urls.SimilarTransitive` | goscraper.go:477-497 | similarity is transitive, so it is an equivalence |
| `Urls.SimilarIgnoresValues` | goscraper.go:478-492 | query values, scheme and fragment never separate two URLs; a different path always does |
| `LinkSets.SimilarLinkSymmetric` | goscraper.go:464 | link similarity (similar From, similar To, equal onclick) is symmetric |
| `LinkSets.SimilarLinkTransitive` | goscraper.go:464 | link similarity is transitive |
| `LinkSets.Links.constructor` | goscraper.go:121-126 | `make(Links)` is empty |
| `LinkSets.Links.Add` | goscraper.go:236-246 | returns true exactly when From and To render differently and the link is not yet a key; then the set gains exactly that link; otherwise the set is unchanged |
| `LinkSets.Links.AddNotSimilar` | goscraper.go:461-475 | inserts the link and returns true exactly when no member is link-similar to it; otherwise returns false and leaves the set unchanged |
| `Summaries.SummaryLink` | goscraper.go:453-459 | the error is always nil; the result is a fresh set that holds a subset of the input, no two distinct members of it are similar, and every input link has a similar member in it |
| `Summaries.SummarizeSubset` | goscraper.go:453-459 | every representative is an input link, for every visiting order |
| `Summaries.SummarizeDistinct` | goscraper.go:453-475 | no two distinct representatives are similar |
| `Summaries.SummarizeCovers` | goscraper.go:453-475 | every input link has a similar representative |
| `Summaries.SummarizeKeepsDissimilar` | goscraper.go:453-475 | an input of pairwise dissimilar links is returned whole |
| `Summaries.SummarizeIdempotent` | goscraper.go:453-459 | summarising any enumeration of a summary gives the same summary |
| `Summaries.SummariesAgree` | goscraper.go:453-459 | two visiting orders of one input give summaries that cover each other's similarity classes |
| `Summaries.ExampleFacts` | goscripter_test.go:21-72 | in the test data, l2 is similar to l1 and different from it, and l3 and l4 are similar to none of the others |
| `Summaries.SummaryExample` | goscripter_test.go:80-93 | visiting l1, l2, l3, l4 gives {l1, l3, l4}; visiting l2 first gives {l2, l3, l4} |
| `Summaries.SummaryExampleAnyOrder` | goscripter_test.go:80-93 | for every visiting order the summary is {l1, l3, l4} or {l2, l3, l4} |
| `Summaries.SummarizeFourAnyOrder` | goscraper.go:453-475 | four links of which only the first two are similar summarise, in any order, to the last two plus exactly one of the first two |
| `Summaries.ScanSimilar` | goscraper.go:430-439 | the inner loop sets each flag exactly when some listed URL is similar to From (resp. To) |
| `Summaries.UniqURL` | goscraper.go:427-451 | every From and To of the input is similar to a listed URL; every listed URL is an endpoint of an input link; there are at most twice as many URLs as links; and two listed URLs are similar only when they are neighbours holding the From and the To of one link, so a URL similar to one kept earlier is never appended again |
| `Summaries.UniqSimilarOnlyWithinOneLink` | goscraper.go:430-445 | for every visiting order, two similar URLs of the list are adjacent and are the From and the To of a single link |
| `Summaries.UniqCovers` | goscraper.go:427-451 | for every visiting order, every endpoint of the input is similar to a listed URL |
| `Summaries.UniqSound` | goscraper.go:427-451 | for every visiting order, every listed URL is an endpoint, and the list is at most twice the input's length |
| `Summaries.UniqSharedFrom` | goscraper.go:427-451 | two links sharing their From list it exactly once, first, unless the first link points back at its own From |
| `Summaries.UniqKeepsSimilarPair` | goscraper.go:430-445 | a single link whose From and To are similar but different yields the list [From, To] of two similar URLs |
| `Summaries.UniqPaginationExample` | goscraper.go:430-445 | the link `/list?page=1` to `/list?page=2` yields two similar URLs |
| `Summaries.UniqIntendedDissimilar` | goscraper.go:427-451 | with To compared after From is appended, no two listed URLs are similar |
| `Summaries.UniqIntendedCovers` | goscraper.go:427-451 | the corrected list still matches every endpoint of the input |
| `Extraction.E2Link` | goscraper.go:270-323 | fails exactly when the page URL or the raw target does not resolve, with the page URL checked first; otherwise From and To are the resolved URLs; method, text, tag, id and onclick follow the element; the selector is empty |
| `Extraction.RawTarget` | goscraper.go:275-281 | the target is `action` when set, else `href` when set, and is empty exactly when both are empty |
| `Extraction.MethodOf` | goscraper.go:286-291 | the method is never empty and has no lower-case ASCII letter; it is GET when the attribute is absent; otherwise it has the attribute's length, and each character is the attribute's character upper-cased |
| `Extraction.MethodOfPost` | goscraper.go:286-291 | `post`, `Post` and `POST` all give the method POST that `OnHTML` tests for |
| `Strings.ToUpper` | goscraper.go:288 | upper-casing keeps the length and maps each character on its own |
| `Extraction.FormTextIsLastLabel` | goscraper.go:292-311 | a form without a name gets the value/alt/name of the last button-like control that has one |
| `Extraction.FormTextDefault` | goscraper.go:292-311 | without such a control, the form keeps its element text |
| `Extraction.FormTextLastButtonWins` | goscraper.go:298-309 | submit buttons "Save" then "Cancel" label the form "Cancel" |
| `Discovery.WithDefaults` | goscraper.go:105-170 | a nil config becomes "output", "csv", "a[href],form,[onclick]" and "loggedin" with every other field zero; for a given config, each of those four options that is empty becomes its default, each that is set is kept, and every other field is kept |
| `Discovery.WithDefaultsIdempotent` | goscraper.go:143-167 | applying the defaults twice changes nothing |
| `Discovery.LinkScraper.constructor` | goscraper.go:105-170 | the scraper holds the defaulted settings and shares the given `Links` map, or starts with an empty one |
| `Discovery.MakeOutFilename` | goscraper.go:325-327 | the name is the base, "_", the stamp, "." and the type, in that order |
| `Discovery.MakeOutFilenameInjective` | goscraper.go:325-327 | with the same stamp and type, different base names give different file names |
| `Strings.Index` | goscraper.go:264 | returns the first offset where the marker occurs, or -1 exactly when it occurs nowhere |
| `Discovery.IsLogin` | goscraper.go:263-268 | logged in exactly when the response body contains the marker |
| `Discovery.CollectParams` | goscraper.go:206-211 | the loop builds the parameter map of the inputs |
| `Discovery.ParamsOfKeys` | goscraper.go:206-211 | the keys are exactly the names of inputs whose type is not a button type |
| `Discovery.ParamsOfLastWins` | goscraper.go:206-211 | each name maps to the value of the last such input that has it |
| `Discovery.IsScriptTarget` | goscraper.go:219 | the target is a script exactly when `javascript:` occurs in it after nothing but white space |
| `Discovery.Relogin` | goscraper.go:213-215 | no request when logged in; otherwise exactly one POST of the login data to the login URL |
| `Discovery.Dispatch` | goscraper.go:203-232 | the outcome is never `InvalidLink`; a link that was not added is only reported; an added link is either left as a script target or requested. A POST with `isdopost` posts the parameters, and any other non-script target is visited. The request list is that one action, preceded by one login POST exactly when the marker is missing |
| `Discovery.ScriptFormIsPosted` | goscraper.go:205-218 | with `isdopost`, a POST form whose target is `javascript:` is still submitted |
| `Discovery.IsScriptTargetIgnoresLeadingSpace` | goscraper.go:219 | white space before `javascript:` does not change the decision |
| `Discovery.LinkScraper.OnHTML` | goscraper.go:196-233 | a failed `E2Link` changes nothing and dispatches nothing; otherwise the link, stamped with the selector, goes through `Add`, and the outcome is `Dispatch` of that answer |
| `Replay.Link2Click` | goscraper.go:608-619 | the strategy is find by id exactly when the id is set, else first by link text for `a`, else first by button text for `form`, else find by name; the key is the id or the text |
| `Replay.MakeBrowseId` | goscraper.go:649-653 | the id is the 14 clock digits followed by the letter picked from the 52-letter alphabet |
| `Replay.BrowseIdCollision` | goscraper.go:649-653 | two ids are equal exactly when they share the clock second and the letter |
| `Replay.LogWindowStart` | goscraper.go:622-631 | the window bound has the form `yyyy/mm/dd hh:mi` |
| `Replay.LogWindowIsMinute` | goscraper.go:622-631 | the bound is the id's clock cut to the minute; the seconds and the letter are dropped |
| `Replay.LogWindowSameMinute` | goscraper.go:622-631 | ids made within one minute share the window |
| `Replay.StartQuery` | goscraper.go:578 | the start marker is a `SELECT 1 FROM DUAL -- ` statement that ends with, and so contains, the browse id |
| `Replay.EndQuery` | goscraper.go:586 | the end marker is built the same way |
| `Replay.MarkersDiffer` | goscraper.go:578-586 | the start and end markers of one replay are different statements |
| `Replay.LikePattern` | goscraper.go:631 | the pattern is the id between two `%` wildcards, so it meets the shape `LikeMatches` requires and strips back to the id |
| `Replay.MarkersMatchPattern` | goscraper.go:578-631 | the start and end marker statements both match the `%bid%` pattern of the log query |
| `Replay.BrowseLinks` | goscraper.go:544-563 | links are replayed in map order, each at most once, and every id is the replay result of an input link; with no error there is one id per link; on error the batch stops right after the failing link, fewer ids than links are returned, and the error is that link's replay error |

## Left out

- Crawling through colly is not modelled: `Visit`, `Post`, `OnRequest`, `Scrape`, `Login`, `LoginE`. `OnHTML` returns the requests it would hand to the crawler instead.
- Browser replay through agouti is not modelled: `NewDriver`, `NewBrowser`, `Browse`, the page steps of `BrowseLink`, screenshots and the driver's start and stop. These are external processes.
- Database access and file output are not modelled: the queries, `row.Scan`, `Output` and the `.png`, `.html` and `.sql_log` writes. Only the strings the id and the log window are built from are kept.
- `Links2Json`, `WriteLinks2Csv`, `Str2filters` and `LogLink` are left out. They are thin wrappers over encoding and regexp libraries.
- `SummaryURL` is left out because it is an unimplemented stub. `DefaultLinkScraper` and `FlushURLs` are left out because they only build an empty struct or store `UniqURL`'s result.
- `time.Now` and `rand.Intn` are not modelled; the clock digits and the letter index are parameters.
- The logger and the collector fields of `Config` and `LinkScraper` are not modelled.
- `url.URL` keeps only scheme, host, path, the parsed query and the fragment. So link equality compares the parsed query map, where Go compares the raw query string, user info, opaque part and raw path. `String()` is the `render` parameter.
- `Links` is a set. The Go map could hold a `false` value only if a caller put one there; `Add` and `addNotSimiler` store only `true`.
- `Strings.Index`: counts offsets in characters, where Go's `strings.Index` counts bytes of the UTF-8 text. goscraper.go:264 only tests the result against -1, so nothing depends on the difference.
- `Strings.ToUpper`: maps only ASCII letters. `strings.ToUpper` also upper-cases other Unicode letters.
- `Discovery.LinkScraper.OnHTML`: after an `E2Link` error the Go handler goes on with a nil link and dereferences it; the model stops with `InvalidLink`.
- `Replay.BrowseLinks`: a link's replay result is a function of the link. The driver start error and the never-taken `err != nil` check at its top are not modelled.
- Concurrent callbacks are not modelled. The source has no lock on the map, and the model is sequential.

## Findings

| source | as written | input that shows it | evidently intended | confidence | as-written member | corrected member |
|---|---|---|---|---|---|---|
| goscripter_test.go:80-93 | `TestSummaryLink` expects exactly {l1, l3, l4}, but l1 and l2 are similar and `SummaryLink` keeps whichever of them the map visits first | the input map visited as l2, l1, l3, l4, which gives {l2, l3, l4} | accept either representative of the class {l1, l2}, that is {l1, l3, l4} or {l2, l3, l4} | medium, not executed | `Summaries.SummaryExample` | `Summaries.SummaryExampleAnyOrder` |
| goscraper.go:430-445 | `UniqURL` compares a link's To with the list as it was before that link's From was appended, so From and To are both appended when they are similar to each other | one link from `http://example.com/list?page=1` to `http://example.com/list?page=2` | compare To with the list that already holds the From, so no two listed URLs are similar | medium, not executed | `Summaries.UniqKeepsSimilarPair` | `Summaries.UniqIntendedDissimilar` |
