# docsify-breadcrumb, modelled in Dafny

The docsify breadcrumb plugin adds an accessible breadcrumb above every
rendered page. Its `afterEach` hook works in several steps:

- It takes the route path and decodes it.
- It splits the path on `/` and drops the segments `#`, `""` and `README`.
- It makes each remaining segment readable: `.`, `_` and `-` become spaces.
- It looks up the page title: the first level-1 heading of the current file in
  the host's title index.
- It emits:
  - a home link, when `showHome` is set or the page is not home;
  - one link per segment except the last, each pointing to the path up to that
    segment;
  - a non-clickable entry with the page title in place of the last segment.
- It wraps all of this in a `<nav aria-label="Breadcrumb">`/`<ol>` and puts it
  in front of the page HTML.

Every step of `src/index.js` is a pure function on strings and sequences, so
the model is too:

- `jsstrings.dfy` (module `JsStrings`) covers the JavaScript built-ins the
  pipeline relies on: `split` on one character, `join`, the end bound of
  `slice(0, end)` and the UTF-16 `length` of a string. Split and join come with
  their round trips. The module also holds general prefix, suffix and slicing
  facts that the proofs use.
- `breadcrumb.dfy` (module `Breadcrumb`) holds the plugin, one function per
  exported function of `src/index.js`, plus the hook body as `Render` and
  `AfterEach`.
  - The plugin options are an explicit `Options` value. `DefaultOptions` holds
    the defaults of `src/index.js:3-11`.
  - `getListItems` is modelled as the source's `reduce`, a left fold
    (`Reduce`). It is proved equal to the markup of an abstract list of entries
    (`Trail`, `Serialize`). The properties of the breadcrumb are stated on those
    entries.
- `examples.dfy` (module `BreadcrumbExamples`) covers the documented cases of
  `src/index.test.js`:
  - Each is first stated for any route of three plain segments.
  - Then it is instantiated with the documented route
    `articles/books-and-more/adventure` and the title "Books and More".
  - The markup lemmas give the exact strings under the default options.

Behaviour of the code that the model keeps:

- `isHome` is judged on the raw path (`length < 2`). The parts come from the
  decoded path. `length` counts UTF-16 code units, so a single character
  outside the Basic Multilingual Plane is not home (`AstralCharacterIsNotHome`).
- A one-character path other than `/` and `#` (say `a`) therefore counts as
  home. Even so, its list is not empty: it holds the current-page entry with
  the page title (`OneCharacterPathListsTitle`).
- `/README` is not home, but no segment survives it. The breadcrumb is then the
  home link with a trailing separator and no current-page entry
  (`ReadmeRouteHasNoTerminal`).
- The home link's style attribute carries a stray `}` (`color: …; }`). The
  source's own expected strings contain it, so the model keeps it.
- The last segment is never a link. The current-page entry shows the title
  from the title index, not the segment (`ListItemsIgnoreLastPart`).
- Segment text and the title are put into the markup as they are, without HTML
  escaping.

## Model

| member | source | states |
|---|---|---|
| JsStrings.Split | src/index.js:57 | `split` always yields at least one piece, and no piece contains the separator |
| JsStrings.SliceEnd | src/index.js:96 | the end bound `slice` uses: in range it is `end`; past the length it is clamped; negative counts from the back, floored at 0 |
| JsStrings.JoinSplit | src/index.js:57 | joining the pieces of a split with the separator gives back the string |
| JsStrings.SplitJoin | src/index.js:96 | splitting a join of separator-free pieces gives back the pieces |
| JsStrings.SplitAfterSeparator | src/index.js:57 | the first separator ends the first piece |
| JsStrings.SplitWithoutSeparator | src/index.js:57 | a string without the separator is a single piece |
| JsStrings.Join | src/index.js:96 | `join` begins with the first piece; split undoes it (`SplitJoin`) |
| JsStrings.Utf16Length | src/index.js:24 | the JavaScript `length` lies between the number of characters and twice it, and equals it exactly when every character is in the Basic Multilingual Plane |
| JsStrings.JoinSnoc | src/index.js:96 | appending a piece appends the separator and that piece |
| Breadcrumb.FindTitle | src/index.js:47 | the result is the title of a level-1 heading, and no earlier heading has level 1 (the first match of `find`) |
| Breadcrumb.PageTitle | src/index.js:46-47 | the title is that of the first level-1 heading of the route's file; a file without one is outside the precondition, where the source throws |
| Breadcrumb.KeepSegments | src/index.js:57 | the filter yields no more parts than it gets, and every kept part is an input part other than `#`, `""`, `README` |
| Breadcrumb.KeepSegmentsMembers | src/index.js:57 | a segment is kept exactly when it occurs in the input and is not `#`, `""` or `README` |
| Breadcrumb.KeepSegmentsAppend | src/index.js:57 | the filter distributes over concatenation (it is order-preserving, element by element) |
| Breadcrumb.KeepSegmentsIdempotent | src/index.js:57 | filtering twice is filtering once |
| Breadcrumb.UrlParts | src/index.js:56-57 | no URL part is `#`, empty or `README`, and none contains `/` |
| Breadcrumb.SanitizePart | src/index.js:67 | same length; each `.`, `_`, `-` becomes a space and every other character is kept in place |
| Breadcrumb.SanitizePartAppend | src/index.js:67 | the rewrite distributes over concatenation |
| Breadcrumb.SanitizeParts | src/index.js:66-67 | same number and order of parts; each part is rewritten character by character as above |
| Breadcrumb.SanitizedIsClean | src/index.js:67 | no sanitized part contains `.`, `_` or `-` |
| Breadcrumb.SanitizeFixesClean | src/index.js:67 | parts without `.`, `_`, `-` are left unchanged |
| Breadcrumb.SanitizeIdempotent | src/index.js:66-67 | sanitizing twice is sanitizing once |
| Breadcrumb.ItemLink | src/index.js:96 | every item link starts with `#/` and ends with `/` |
| Breadcrumb.ItemLinkExtends | src/index.js:96 | the link one level deeper is the previous link plus the next part and `/` |
| Breadcrumb.ItemLinkRoundTrip | src/index.js:96 | between `#/` and the final `/`, a link holds exactly the first `end` parts: splitting on `/` gives them back |
| Breadcrumb.LinkItem | src/index.js:83 | a link item opens with `<li><a href=` and the target, then the link colour, and closes with the label, `</a>`, the separator and `</li>` |
| Breadcrumb.CurrentItem | src/index.js:84 | the current-page item opens with the `active`/`aria-current="page"` `<li>` and closes with the title and `</li>` |
| Breadcrumb.ItemDom | src/index.js:79-84 | the `reduce` callback's item at index `i` is the markup of the `i`-th entry: a link to the first `i + 1` parts, or the title entry at the last index |
| Breadcrumb.Reduce | src/index.js:77-87 | the fold only appends: its result starts with the accumulator |
| Breadcrumb.ReduceSerializes | src/index.js:77-87 | the string `reduce` from index `i` appends exactly the markup of the entries from `i` on |
| Breadcrumb.ListItems | src/index.js:77-87 | the list items are the markup of the entries, in order; no parts give the empty string |
| Breadcrumb.TrailHasOneTerminal | src/index.js:80-84 | a non-empty list has exactly one current-page entry, the last, with the title; each other entry is a link labelled by its readable part |
| Breadcrumb.CountCurrentNone | src/index.js:80-84 | a list of links has no current-page entry |
| Breadcrumb.CountCurrentAppend | src/index.js:86 | current-page entries add up over concatenation |
| Breadcrumb.TrailHrefsExtend | src/index.js:79 | for two or more parts, the first link targets `#/` + first part + `/`, and each further link extends the previous one by one part |
| Breadcrumb.ListItemsIgnoreLastPart | src/index.js:79-84 | the last part, raw or readable, never reaches the markup: changing it leaves the list items unchanged |
| Breadcrumb.HomeLink | src/index.js:104-110 | the home link starts with the link opening; its colour is `inherit` on the home page and the link colour elsewhere; after the colour comes `; font-weight:inherit;}">` on the home page and `; }">` elsewhere (both with the stray `}`); it ends with the home text and `</a></li>` on the home page, and with the separator before `</li>` elsewhere |
| Breadcrumb.HomeSlot | src/index.js:24-29 | the home slot is empty exactly when `showHome` is off and the raw path is shorter than two UTF-16 code units; otherwise it is the home link for that home status |
| Breadcrumb.Wrapper | src/index.js:119-129 | the breadcrumb begins with the `<nav>`/`<ol>` opening followed by the home slot, and ends with the list items followed by the closing tags |
| Breadcrumb.WrapperReadsSizeAndCasing | src/index.js:119-129 | of the options, the wrapper depends only on `size` and `casing` |
| Breadcrumb.Render | src/index.js:23-31 | the breadcrumb is the wrapper around the home slot of the raw path and the markup of the entries built from the decoded, filtered, sanitized parts and the page title |
| Breadcrumb.AfterEach | src/index.js:35 | the hook hands on the breadcrumb followed by the page HTML, which is left untouched, and nothing else |
| Breadcrumb.NonHomeShowsHomeLink | src/index.js:24-29 | a path of two or more UTF-16 code units always starts the breadcrumb with the non-home home link |
| Breadcrumb.HomePageIsEmpty | src/index.js:23-31 | with `showHome` off, the paths `""`, `/` and `#` render an empty breadcrumb: no home link, no items |
| Breadcrumb.RootPathsHaveNoParts | src/index.js:24-27 | `""`, `/` and `#` give no parts and count as home |
| Breadcrumb.EmptyPartsRender | src/index.js:27-31 | when no segment survives the filter, the breadcrumb is the home slot and no items |
| Breadcrumb.OneCharacterPathListsTitle | src/index.js:23-31 | a path of one UTF-16 code unit other than `/` or `#` counts as home, yet lists the title as its current-page entry |
| Breadcrumb.AstralCharacterIsNotHome | src/index.js:24-29 | a one-character path outside the Basic Multilingual Plane has `length` 2, so it gets the non-home home link |
| Breadcrumb.IndexDocumentHasNoParts | src/index.js:57 | `/README` and `/#` give no parts |
| Breadcrumb.ReadmeRouteHasNoTerminal | src/index.js:23-31 | `/README` (and `/#`) draws the non-home home link with its separator and no current-page entry |
| BreadcrumbExamples.SanitizeHyphenated | src/index.test.js:33-37 | hyphens between words become spaces (`books-and-more` reads `books and more`) |
| BreadcrumbExamples.UrlPartsOfThree | src/index.test.js:26-30 | a path of three plain segments yields exactly those three parts |
| BreadcrumbExamples.ItemLinksOfThree | src/index.test.js:51-61 | the links for ends 1, 2 and 3 of three parts |
| BreadcrumbExamples.ListItemsOfThree | src/index.test.js:40-48 | three parts give two links (first part; first two parts) and the current-page entry |
| BreadcrumbExamples.SanitizedListOfThree | src/index.js:28-31 | three parts give links labelled by the sanitized first and second parts, then the title entry |
| BreadcrumbExamples.RenderOfThree | src/index.js:22-31 | the whole breadcrumb for any route of three plain segments |
| BreadcrumbExamples.DocumentedRoute | src/index.test.js:12-48 | the documented route renders links to `#/articles/` (labelled `articles`) and `#/articles/books-and-more/` (labelled `books and more`), then the title "Books and More" |
| BreadcrumbExamples.PageTitleExample | src/index.test.js:12-23 | the documented title lookup yields "Books and More" |
| BreadcrumbExamples.LinkItemExample | src/index.test.js:46 | the exact markup of a link item under the default options |
| BreadcrumbExamples.CurrentItemExample | src/index.test.js:46 | the exact markup of the current-page item |
| BreadcrumbExamples.HomeLinkOnHomeExample | src/index.test.js:65-67 | the exact home link on the home page, with the stray `}` |
| BreadcrumbExamples.HomeLinkElsewhereExample | src/index.test.js:69-71 | the exact home link elsewhere, with the separator |
| BreadcrumbExamples.WrapperExample | src/index.test.js:74-90 | the exact wrapper markup with the default size and casing |

## Left out

- `DefaultOptions` is a constant, the defaults of src/index.js:3-9. It carries no contract; the example lemmas show the markup it produces.
- The option merge with `window.$docsify.breadcrumb` (src/index.js:1-11) is host state. The options are a parameter, and `DefaultOptions` holds the defaults.
- Plugin registration on `window.$docsify.plugins` (src/index.js:131-135) is page-global side effects.
- `console.log(vm)` (src/index.js:33) is I/O with no effect on the result.
- The `hook`/`next` continuation protocol (src/index.js:21-22,35) is left out. The value passed to `next` is `AfterEach`.
- `decodeURI` is a parameter `decode`, so percent-decoding and its `URIError` are not modelled. The scenario lemmas assume that it leaves their paths unchanged.
- Breadcrumb.PageTitle: the source throws in two cases: the route's file is missing from the title index (`find` on `undefined`), or the file has no level-1 heading (`.title` of `undefined`). The model excludes both by precondition (`HasPageTitle`) instead of modelling the exception.
- JsStrings.SliceEnd: `slice` with an `undefined` end is not modelled. The source always passes an integer end.
- JavaScript strings are UTF-16 code-unit sequences; the model uses `seq<char>` (Unicode scalar values). The split, filter and rewrite only look for ASCII characters, so their results agree. The one place where the unit counts is `length` in `isHome`, and the model computes it in UTF-16 code units (`Utf16Length`). Lone surrogates, which a `seq<char>` cannot hold, are not modelled.
- `bundle.js` is the compiled copy of `src/index.js`, and `rollup.config.mjs` is build configuration. Neither is part of this model.
