/** The docsify breadcrumb plugin: a route path and the page's level-1 heading
    become an accessible `<nav>`/`<ol>` breadcrumb, prepended to the page HTML.
    Every stage is a pure string or sequence function; the plugin options are
    an explicit `Options` value instead of a page-global object. */
module Breadcrumb {
  import opened JsStrings

  /** The plugin options: defaults, each overridable by the host. */
  datatype Options = Options(
    showHome: bool,
    homeText: string,
    separator: string,
    casing: string,
    linkColor: string,
    size: string)

  /** The options when the host overrides nothing. */
  const DefaultOptions := Options(false, "Home", " &rsaquo; ", "capitalize", "var(--theme-color, #42b983)", "small")

  /** One entry of the host's table of contents for a file. */
  datatype Heading = Heading(level: int, title: string)

  /** The host's title index: file name to its headings, in document order. */
  type TitleIndex = map<string, seq<Heading>>

  /** The current route: the path shown in the address bar and the file it renders. */
  datatype Route = Route(path: string, file: string)

  // ---------------------------------------------------------------- page title

  predicate HasLevelOne(hs: seq<Heading>) {
    exists i :: 0 <= i < |hs| && hs[i].level == 1
  }

  /** The host must have a level-1 heading for the current file; otherwise the
      lookup dereferences `undefined` and throws. */
  predicate HasPageTitle(route: Route, toc: TitleIndex) {
    route.file in toc && HasLevelOne(toc[route.file])
  }

  /** `hs.find(h => h.level === 1).title`: the title of the FIRST level-1 heading. */
  function FindTitle(hs: seq<Heading>): (r: string)
    requires HasLevelOne(hs)
    ensures exists i :: 0 <= i < |hs| && hs[i].level == 1 && hs[i].title == r &&
                        forall k :: 0 <= k < i ==> hs[k].level != 1
    decreases |hs|
  {
    if hs[0].level == 1 then hs[0].title
    else
      assert HasLevelOne(hs[1..]) by {
        var i :| 0 <= i < |hs| && hs[i].level == 1;
        assert hs[1..][i - 1] == hs[i];
      }
      var r := FindTitle(hs[1..]);
      assert exists i :: 0 <= i < |hs| && hs[i].level == 1 && hs[i].title == r &&
                         forall k :: 0 <= k < i ==> hs[k].level != 1 by {
        var j :| 0 <= j < |hs[1..]| && hs[1..][j].level == 1 && hs[1..][j].title == r &&
                 forall k :: 0 <= k < j ==> hs[1..][k].level != 1;
        assert hs[j + 1] == hs[1..][j];
        forall k | 0 <= k < j + 1 ensures hs[k].level != 1 {
          if k > 0 { assert hs[k] == hs[1..][k - 1]; }
        }
      }
      r
  }

  /** `getPageTitle`: the title of the first level-1 heading of the route's file. */
  function PageTitle(route: Route, toc: TitleIndex): (r: string)
    requires HasPageTitle(route, toc)
    ensures exists i :: 0 <= i < |toc[route.file]| && toc[route.file][i].level == 1 &&
                        toc[route.file][i].title == r &&
                        forall k :: 0 <= k < i ==> toc[route.file][k].level != 1
  {
    FindTitle(toc[route.file])
  }

  // ----------------------------------------------------------------- url parts

  /** The segments that name no breadcrumb level: the hash marker, the empty
      segment and the index document. */
  predicate Excluded(s: string) {
    s == "#" || s == "" || s == "README"
  }

  /** The `filter` of `getUrlParts`: keeps the segments that are not excluded. */
  function KeepSegments(parts: seq<string>): (r: seq<string>)
    ensures |r| <= |parts|
    ensures forall i :: 0 <= i < |r| ==> !Excluded(r[i]) && r[i] in parts
    decreases |parts|
  {
    if |parts| == 0 then []
    else (if Excluded(parts[0]) then [] else [parts[0]]) + KeepSegments(parts[1..])
  }

  /** A segment survives the filter exactly when it occurs in the input and
      is not excluded. */
  lemma {:induction false} KeepSegmentsMembers(parts: seq<string>, x: string)
    ensures x in KeepSegments(parts) <==> x in parts && !Excluded(x)
    decreases |parts|
  {
    if |parts| > 0 {
      KeepSegmentsMembers(parts[1..], x);
      assert parts == [parts[0]] + parts[1..];
    }
  }

  /** Filtering distributes over concatenation: kept segments stay in their
      original order, and whether one is kept depends on it alone. */
  lemma {:induction false} KeepSegmentsAppend(a: seq<string>, b: seq<string>)
    ensures KeepSegments(a + b) == KeepSegments(a) + KeepSegments(b)
    decreases |a|
  {
    if |a| > 0 {
      var head := if Excluded(a[0]) then [] else [a[0]];
      KeepSegmentsAppend(a[1..], b);
      assert (a + b)[0] == a[0];
      assert (a + b)[1..] == a[1..] + b;
      calc {
        KeepSegments(a + b);
        head + KeepSegments(a[1..] + b);
        head + (KeepSegments(a[1..]) + KeepSegments(b));
        (head + KeepSegments(a[1..])) + KeepSegments(b);
      }
    } else {
      assert a + b == b;
    }
  }

  /** Filtering again changes nothing. */
  lemma {:induction false} KeepSegmentsIdempotent(parts: seq<string>)
    ensures KeepSegments(KeepSegments(parts)) == KeepSegments(parts)
    decreases |parts|
  {
    if |parts| > 0 {
      var head := if Excluded(parts[0]) then [] else [parts[0]];
      KeepSegmentsIdempotent(parts[1..]);
      KeepSegmentsAppend(head, KeepSegments(parts[1..]));
      if !Excluded(parts[0]) {
        assert KeepSegments(head) == head by { assert head[1..] == []; }
      }
    }
  }

  /** `getUrlParts`: split the decoded path on `/` and drop the excluded
      segments. `decode` stands for the host's `decodeURI`. */
  function UrlParts(url: string, decode: string -> string): (r: seq<string>)
    ensures forall i :: 0 <= i < |r| ==> !Excluded(r[i]) && '/' !in r[i]
  {
    KeepSegments(Split(decode(url), '/'))
  }

  // ---------------------------------------------------------------- sanitizing

  /** The characters the regular expression `[._-]` matches. */
  predicate IsPunct(c: char) {
    c == '.' || c == '_' || c == '-'
  }

  function SanitizeChar(c: char): char {
    if IsPunct(c) then ' ' else c
  }

  /** `part.replace(/[._-]/g, ' ')`: each of `.`, `_`, `-` becomes a space,
      every other character stays where it is. */
  function SanitizePart(s: string): (r: string)
    ensures |r| == |s|
    ensures forall i :: 0 <= i < |s| ==> r[i] == (if IsPunct(s[i]) then ' ' else s[i])
    decreases |s|
  {
    if |s| == 0 then "" else [SanitizeChar(s[0])] + SanitizePart(s[1..])
  }

  /** The rewrite is character by character, so it distributes over concatenation. */
  lemma SanitizePartAppend(a: string, b: string)
    ensures SanitizePart(a + b) == SanitizePart(a) + SanitizePart(b)
  {
    var whole, left, right := SanitizePart(a + b), SanitizePart(a), SanitizePart(b);
    forall i | 0 <= i < |whole| ensures whole[i] == (left + right)[i] {
      if i < |a| {
        assert (a + b)[i] == a[i];
      } else {
        assert (a + b)[i] == b[i - |a|];
      }
    }
    assert whole == left + right;
  }

  /** `sanitizeUrlParts`: sanitizes every part, keeping the number and order of parts. */
  function SanitizeParts(parts: seq<string>): (r: seq<string>)
    ensures |r| == |parts|
    ensures forall i :: 0 <= i < |parts| ==> r[i] == SanitizePart(parts[i])
    ensures forall i :: 0 <= i < |parts| ==> |r[i]| == |parts[i]|
    ensures forall i, j :: 0 <= i < |parts| && 0 <= j < |parts[i]| ==>
              r[i][j] == (if IsPunct(parts[i][j]) then ' ' else parts[i][j])
    decreases |parts|
  {
    if |parts| == 0 then [] else [SanitizePart(parts[0])] + SanitizeParts(parts[1..])
  }

  /** No sanitized part contains `.`, `_` or `-`. */
  lemma SanitizedIsClean(parts: seq<string>)
    ensures forall i, j :: 0 <= i < |parts| && 0 <= j < |SanitizeParts(parts)[i]| ==>
              !IsPunct(SanitizeParts(parts)[i][j])
  {
  }

  /** Parts without `.`, `_` or `-` are left as they are. */
  lemma {:induction false} SanitizeFixesClean(parts: seq<string>)
    requires forall i, j :: 0 <= i < |parts| && 0 <= j < |parts[i]| ==> !IsPunct(parts[i][j])
    ensures SanitizeParts(parts) == parts
  {
    var r := SanitizeParts(parts);
    forall i | 0 <= i < |parts| ensures r[i] == parts[i] {
      assert |r[i]| == |parts[i]|;
      forall j | 0 <= j < |parts[i]| ensures r[i][j] == parts[i][j] {
      }
    }
  }

  /** Sanitizing twice is sanitizing once. */
  lemma {:induction false} SanitizeIdempotent(parts: seq<string>)
    ensures SanitizeParts(SanitizeParts(parts)) == SanitizeParts(parts)
  {
    SanitizedIsClean(parts);
    SanitizeFixesClean(SanitizeParts(parts));
  }

  // --------------------------------------------------------------------- links

  /** `getItemLink`: `#/`, the first `end` parts joined by `/`, then `/`. */
  function ItemLink(urlParts: seq<string>, end: int): (r: string)
    ensures |r| >= 3 && r[..2] == "#/" && r[|r| - 1] == '/'
  {
    "#/" + Join(urlParts[..SliceEnd(|urlParts|, end)], "/") + "/"
  }

  /** The link one level deeper is the link before it with the next part and `/` appended. */
  lemma ItemLinkExtends(urlParts: seq<string>, k: nat)
    requires 1 <= k < |urlParts|
    ensures ItemLink(urlParts, k + 1) == ItemLink(urlParts, k) + urlParts[k] + "/"
  {
    assert urlParts[..k + 1] == urlParts[..k] + [urlParts[k]];
    JoinSnoc(urlParts[..k], urlParts[k], "/");
  }

  /** Between `#/` and the last `/`, a link holds exactly the path of its first
      `end` parts: splitting it on `/` gives those parts back. */
  lemma ItemLinkRoundTrip(urlParts: seq<string>, end: int)
    requires 1 <= end <= |urlParts|
    requires forall i :: 0 <= i < |urlParts| ==> '/' !in urlParts[i]
    ensures var link := ItemLink(urlParts, end);
            Split(link[2..|link| - 1], '/') == urlParts[..end]
  {
    var link := ItemLink(urlParts, end);
    var inner := Join(urlParts[..end], "/");
    assert link == "#/" + inner + "/";
    assert link[2..|link| - 1] == inner;
    SplitJoin(urlParts[..end], '/');
  }

  // --------------------------------------------------------------- list items

  /** The markup of one clickable breadcrumb item. */
  function LinkItem(href: string, text: string, opts: Options): (r: string)
    ensures StartsWith(r, "<li><a href=" + href + " style=\"color: " + opts.linkColor + "\">")
    ensures EndsWith(r, text + "</a>" + opts.separator + "</li>")
  {
    var open := "<li><a href=" + href + " style=\"color: " + opts.linkColor + "\">";
    var close := text + "</a>" + opts.separator + "</li>";
    Pieces(open, close, "");
    open + close
  }

  const CurrentOpen: string := "<li class=\"active\" aria-current=\"page\">"

  /** The markup of the terminal item: marked active and current, with no link. */
  function CurrentItem(title: string): (r: string)
    ensures StartsWith(r, CurrentOpen)
    ensures EndsWith(r, title + "</li>")
  {
    Pieces(CurrentOpen, title + "</li>", "");
    CurrentOpen + (title + "</li>")
  }

  /** The `itemDom` of the `reduce` callback in `getListItems` at index `i`. */
  function ItemDom(readable: seq<string>, urlParts: seq<string>, title: string, opts: Options, i: nat): (r: string)
    requires i < |readable|
    ensures r == EntryHtml(Trail(readable, urlParts, title)[i], opts)
  {
    var link := ItemLink(urlParts, i + 1);
    var isLastLink := i == |readable| - 1;
    if !isLastLink then LinkItem(link, readable[i], opts) else CurrentItem(title)
  }

  /** The `reduce` of `getListItems`, from index `i` with accumulator `acc`. */
  function Reduce(readable: seq<string>, urlParts: seq<string>, title: string, opts: Options,
                  i: nat, acc: string): (r: string)
    requires i <= |readable|
    ensures StartsWith(r, acc)
    decreases |readable| - i
  {
    if i == |readable| then acc
    else
      var next := acc + ItemDom(readable, urlParts, title, opts, i);
      var r := Reduce(readable, urlParts, title, opts, i + 1, next);
      StartsWithPrefix(r, acc, ItemDom(readable, urlParts, title, opts, i));
      r
  }

  /** An abstract breadcrumb entry: a link with its target and label, or the
      non-clickable entry for the current page. */
  datatype Entry = Link(href: string, text: string) | Current(title: string)

  /** The entries `getListItems` renders: one link per part except the last,
      whose place is taken by the current page's title. */
  function Trail(readable: seq<string>, urlParts: seq<string>, title: string): seq<Entry> {
    seq(|readable|, i requires 0 <= i < |readable| =>
      if i < |readable| - 1 then Link(ItemLink(urlParts, i + 1), readable[i]) else Current(title))
  }

  function EntryHtml(e: Entry, opts: Options): string {
    match e
    case Link(href, text) => LinkItem(href, text, opts)
    case Current(title) => CurrentItem(title)
  }

  /** The markup of a sequence of entries, in order. */
  function Serialize(es: seq<Entry>, opts: Options): string
    decreases |es|
  {
    if |es| == 0 then "" else EntryHtml(es[0], opts) + Serialize(es[1..], opts)
  }

  /** The fold from index `i` appends exactly the entries from `i` on. */
  lemma {:induction false} ReduceSerializes(readable: seq<string>, urlParts: seq<string>, title: string,
                                            opts: Options, i: nat, acc: string)
    requires i <= |readable|
    ensures Reduce(readable, urlParts, title, opts, i, acc) ==
            acc + Serialize(Trail(readable, urlParts, title)[i..], opts)
    decreases |readable| - i
  {
    var t := Trail(readable, urlParts, title);
    if i < |readable| {
      var item := ItemDom(readable, urlParts, title, opts, i);
      ReduceSerializes(readable, urlParts, title, opts, i + 1, acc + item);
      assert t[i..][1..] == t[i + 1..];
      assert EntryHtml(t[i], opts) == item;
    }
  }

  /** `getListItems`: the `<li>` items of the path. The string fold is exactly
      the markup of the entries of `Trail`; no parts give no items. */
  function ListItems(readable: seq<string>, urlParts: seq<string>, title: string, opts: Options): (r: string)
    ensures r == Serialize(Trail(readable, urlParts, title), opts)
    ensures |readable| == 0 ==> r == ""
  {
    ReduceSerializes(readable, urlParts, title, opts, 0, "");
    assert Trail(readable, urlParts, title)[0..] == Trail(readable, urlParts, title);
    Reduce(readable, urlParts, title, opts, 0, "")
  }

  function CountCurrent(es: seq<Entry>): nat
    decreases |es|
  {
    if |es| == 0 then 0 else (if es[0].Current? then 1 else 0) + CountCurrent(es[1..])
  }

  lemma {:induction false} CountCurrentNone(es: seq<Entry>)
    requires forall i :: 0 <= i < |es| ==> es[i].Link?
    ensures CountCurrent(es) == 0
    decreases |es|
  {
    if |es| > 0 {
      CountCurrentNone(es[1..]);
    }
  }

  /** A non-empty trail has exactly one current-page entry, the last, carrying
      the page title; every other entry is a link labelled by its readable part. */
  lemma {:induction false} TrailHasOneTerminal(readable: seq<string>, urlParts: seq<string>, title: string)
    requires |readable| > 0
    ensures var t := Trail(readable, urlParts, title);
            && |t| == |readable|
            && t[|t| - 1] == Current(title)
            && CountCurrent(t) == 1
            && forall i :: 0 <= i < |t| - 1 ==> t[i].Link? && t[i].text == readable[i]
  {
    var t := Trail(readable, urlParts, title);
    var n := |t|;
    assert t == t[..n - 1] + [t[n - 1]];
    CountCurrentNone(t[..n - 1]);
    CountCurrentAppend(t[..n - 1], [t[n - 1]]);
  }

  lemma {:induction false} CountCurrentAppend(a: seq<Entry>, b: seq<Entry>)
    ensures CountCurrent(a + b) == CountCurrent(a) + CountCurrent(b)
    decreases |a|
  {
    if |a| > 0 {
      CountCurrentAppend(a[1..], b);
      assert (a + b)[0] == a[0];
      assert (a + b)[1..] == a[1..] + b;
      assert CountCurrent(a + b) == (if a[0].Current? then 1 else 0) + CountCurrent(a[1..] + b);
    } else {
      assert a + b == b;
    }
  }

  /** The first link targets the first part; each further link targets the
      previous link's path extended by one part. */
  lemma TrailHrefsExtend(readable: seq<string>, urlParts: seq<string>, title: string)
    requires |urlParts| == |readable| >= 2
    ensures var t := Trail(readable, urlParts, title);
            t[0].href == "#/" + urlParts[0] + "/"
    ensures var t := Trail(readable, urlParts, title);
            forall i :: 0 <= i < |readable| - 2 ==> t[i + 1].href == t[i].href + urlParts[i + 1] + "/"
  {
    var t := Trail(readable, urlParts, title);
    assert urlParts[..1] == [urlParts[0]];
    forall i | 0 <= i < |readable| - 2 ensures t[i + 1].href == t[i].href + urlParts[i + 1] + "/" {
      ItemLinkExtends(urlParts, i + 1);
    }
  }

  /** The last part never appears as a link or a label: changing its raw or
      readable text leaves the list items unchanged. */
  lemma ListItemsIgnoreLastPart(readable: seq<string>, urlParts: seq<string>, title: string,
                                opts: Options, x: string, y: string)
    requires |readable| == |urlParts| > 0
    ensures var n := |readable|;
            ListItems(readable[n - 1 := x], urlParts[n - 1 := y], title, opts) ==
            ListItems(readable, urlParts, title, opts)
  {
    var n := |readable|;
    var u' := urlParts[n - 1 := y];
    forall j | 1 <= j < n ensures ItemLink(u', j) == ItemLink(urlParts, j) {
      assert u'[..j] == urlParts[..j];
    }
    assert Trail(readable[n - 1 := x], u', title) == Trail(readable, urlParts, title);
  }

  // ----------------------------------------------------------------- home link

  /** The opening of the home link, up to its colour. */
  const HomeOpen: string := "<li><a href='#/' style=\"color: "

  /** `getHomeLink`: a link to `#/` labelled with `homeText`. On the home page
      it is drawn in the inherited colour and weight and ends the list; elsewhere
      it uses the link colour and is followed by the separator. The stray `}`
      in its style attribute is part of the markup. */
  function HomeLink(isHome: bool, opts: Options): (r: string)
    ensures StartsWith(r, HomeOpen)
    ensures var colour := if isHome then "inherit" else opts.linkColor;
            |HomeOpen| + |colour| <= |r| && r[|HomeOpen|..|HomeOpen| + |colour|] == colour
    ensures isHome ==> EndsWith(r, opts.homeText + "</a></li>")
    ensures !isHome ==> EndsWith(r, opts.homeText + "</a>" + opts.separator + "</li>")
    ensures var colour := if isHome then "inherit" else opts.linkColor;
            var style := if isHome then "; font-weight:inherit;}\">" else "; }\">";
            var at := |HomeOpen| + |colour|;
            at + |style| <= |r| && r[at..at + |style|] == style
  {
    var color := if isHome then "inherit" else opts.linkColor;
    var style := if isHome then "; font-weight:inherit;}\">" else "; }\">";
    var separator := if isHome then "" else opts.separator;
    var rest := opts.homeText + "</a>" + separator + "</li>";
    assert isHome ==> rest == opts.homeText + "</a></li>";
    var head := HomeOpen + color;
    var r := head + style + rest;
    Pieces(head, style, rest);
    assert r[..|HomeOpen|] == head[..|HomeOpen|];
    assert r[|HomeOpen|..|head|] == head[|HomeOpen|..];
    r
  }

  /** The home slot of the hook: the home link when `showHome` is set or the
      page is not home (a raw path of at least two UTF-16 code units), else nothing. */
  function HomeSlot(path: string, opts: Options): (r: string)
    ensures r == "" <==> !opts.showHome && Utf16Length(path) < 2
    ensures r != "" ==> r == HomeLink(Utf16Length(path) < 2, opts)
  {
    var isHome := Utf16Length(path) < 2;
    if opts.showHome || !isHome then HomeLink(isHome, opts) else ""
  }

  // ------------------------------------------------------------------- wrapper

  /** The markup before the home slot; the only option values in it are `size`
      (in the `breadcrumb--` class) and `casing` (in `text-transform:`). */
  function NavOpen(opts: Options): string {
    "\n  <nav aria-label=\"Breadcrumb\" class=\"breadcrumb\">\n    <ol\n      class=' breadcrumb--" + opts.size +
    "'\n      style=\"text-transform:" + opts.casing + "\"\n    >\n      "
  }

  /** The markup between the home slot and the list items. */
  const ItemGap: string := "\n      "

  /** The markup after the list items. */
  const NavClose: string := "\n    </ol>\n  </nav>\n"

  /** `generateAccessibleBreadcrumb`: the home slot, then the list items, inside
      the labelled `<nav>` and the `<ol>` that carries size and casing. The
      breadcrumb opens with the home slot and closes with the list items, with
      the gap between them. */
  function Wrapper(homeLink: string, list: string, opts: Options): (r: string)
    ensures StartsWith(r, NavOpen(opts) + homeLink)
    ensures EndsWith(r, ItemGap + list + NavClose)
  {
    var head := NavOpen(opts) + homeLink;
    var tail := ItemGap + list + NavClose;
    Pieces(head, tail, "");
    head + tail
  }

  /** Of the options, the wrapper reads only `size` and `casing`. */
  lemma WrapperReadsSizeAndCasing(homeLink: string, list: string, o1: Options, o2: Options)
    requires o1.size == o2.size && o1.casing == o2.casing
    ensures Wrapper(homeLink, list, o1) == Wrapper(homeLink, list, o2)
  {
  }

  // --------------------------------------------------------------------- hook

  /** The breadcrumb the `afterEach` hook renders for a route. `isHome` is
      judged on the raw path; the parts come from the decoded one. */
  function Render(route: Route, toc: TitleIndex, opts: Options, decode: string -> string): (r: string)
    requires HasPageTitle(route, toc)
    ensures var urlParts := UrlParts(route.path, decode);
            r == Wrapper(HomeSlot(route.path, opts),
                         Serialize(Trail(SanitizeParts(urlParts), urlParts, PageTitle(route, toc)), opts),
                         opts)
  {
    var url := route.path;
    var title := PageTitle(route, toc);
    var urlParts := UrlParts(url, decode);
    var readableUrlParts := SanitizeParts(urlParts);
    var homeLink := HomeSlot(url, opts);
    Wrapper(homeLink, ListItems(readableUrlParts, urlParts, title, opts), opts)
  }

  /** The `afterEach` hook hands on the breadcrumb followed by the page HTML,
      which it leaves untouched. */
  function AfterEach(html: string, route: Route, toc: TitleIndex, opts: Options,
                     decode: string -> string): (r: string)
    requires HasPageTitle(route, toc)
    ensures StartsWith(r, Render(route, toc, opts, decode))
    ensures EndsWith(r, html)
    ensures |r| == |Render(route, toc, opts, decode)| + |html|
  {
    var breadcrumb := Render(route, toc, opts, decode);
    Pieces(breadcrumb, html, "");
    breadcrumb + html
  }

  /** A path of at least two UTF-16 code units always gets the home link, coloured
      as a link and followed by the separator. */
  lemma NonHomeShowsHomeLink(route: Route, toc: TitleIndex, opts: Options, decode: string -> string)
    requires HasPageTitle(route, toc)
    requires Utf16Length(route.path) >= 2
    ensures var r := Render(route, toc, opts, decode);
            var h := HomeLink(false, opts);
            StartsWith(r, NavOpen(opts) + h)
  {
  }

  /** With `showHome` off, the root paths render the empty breadcrumb: no home
      entry and no list items. */
  lemma HomePageIsEmpty(route: Route, toc: TitleIndex, opts: Options, decode: string -> string)
    requires HasPageTitle(route, toc)
    requires !opts.showHome
    requires route.path == "" || route.path == "/" || route.path == "#"
    requires decode(route.path) == route.path
    ensures Render(route, toc, opts, decode) == Wrapper("", "", opts)
  {
    RootPathsHaveNoParts(route.path, decode);
    EmptyPartsRender(route, toc, opts, decode);
  }

  /** The root paths split into nothing but excluded segments. */
  lemma RootPathsHaveNoParts(s: string, decode: string -> string)
    requires s == "" || s == "/" || s == "#"
    requires decode(s) == s
    ensures UrlParts(s, decode) == []
    ensures Utf16Length(s) < 2
  {
    if s == "" {
      assert Split(s, '/') == [""];
      assert KeepSegments([""]) == [] by { assert [""][1..] == []; }
    } else if s == "/" {
      SplitAfterSeparator("", '/', "");
      assert s == "" + ['/'] + "";
      assert Split(s, '/') == ["", ""];
      assert KeepSegments(["", ""]) == [] by {
        assert ["", ""][1..] == [""];
        assert [""][1..] == [];
      }
    } else {
      SplitWithoutSeparator(s, '/');
      assert KeepSegments([s]) == [] by { assert [s][1..] == []; }
    }
  }

  /** A path of one UTF-16 code unit other than `/` and `#` counts as home, yet it still
      lists its single part: the current-page entry with the title. */
  lemma OneCharacterPathListsTitle(route: Route, toc: TitleIndex, opts: Options, decode: string -> string)
    requires HasPageTitle(route, toc)
    requires Utf16Length(route.path) == 1 && route.path[0] != '/' && route.path[0] != '#'
    requires decode(route.path) == route.path
    ensures Render(route, toc, opts, decode) ==
            Wrapper(HomeSlot(route.path, opts), CurrentItem(PageTitle(route, toc)), opts)
    ensures !opts.showHome ==> HomeSlot(route.path, opts) == ""
  {
    var s := route.path;
    SplitWithoutSeparator(s, '/');
    assert KeepSegments([s]) == [s] by { assert [s][1..] == []; }
    var readable := SanitizeParts([s]);
    var t := Trail(readable, [s], PageTitle(route, toc));
    assert t == [Current(PageTitle(route, toc))];
    assert Serialize(t, opts) == CurrentItem(PageTitle(route, toc)) by {
      assert t[1..] == [];
    }
  }

  /** A one-character path whose character lies outside the Basic
      Multilingual Plane has a JavaScript `length` of 2, so it is not home: the
      home link is drawn, coloured as a link and followed by the separator. */
  lemma AstralCharacterIsNotHome(path: string, opts: Options)
    requires |path| == 1 && (path[0] as int) >= 0x1_0000
    ensures HomeSlot(path, opts) == HomeLink(false, opts)
  {
    assert Utf16Length(path) == 2 by {
      assert path[1..] == [];
    }
  }

  /** The index document under the root (`/README`, and likewise `/#`) is not
      home, so the home link and its trailing separator are drawn, but no part
      survives: there is no current-page entry at all. */
  lemma ReadmeRouteHasNoTerminal(route: Route, toc: TitleIndex, opts: Options, decode: string -> string,
                                 doc: string)
    requires HasPageTitle(route, toc)
    requires Excluded(doc) && doc != ""
    requires route.path == "/" + doc
    requires decode(route.path) == route.path
    ensures Render(route, toc, opts, decode) == Wrapper(HomeLink(false, opts), "", opts)
  {
    IndexDocumentHasNoParts(route.path, decode, doc);
    EmptyPartsRender(route, toc, opts, decode);
  }

  /** `/` followed by an excluded segment splits into nothing but excluded segments. */
  lemma IndexDocumentHasNoParts(s: string, decode: string -> string, doc: string)
    requires Excluded(doc) && doc != ""
    requires s == "/" + doc
    requires decode(s) == s
    ensures UrlParts(s, decode) == []
  {
    SplitWithoutSeparator(doc, '/');
    SplitAfterSeparator("", '/', doc);
    assert s == "" + ['/'] + doc;
    assert KeepSegments(["", doc]) == [] by {
      assert ["", doc][1..] == [doc];
      assert [doc][1..] == [];
    }
  }

  /** When no part survives, the breadcrumb is the home slot and no items. */
  lemma EmptyPartsRender(route: Route, toc: TitleIndex, opts: Options, decode: string -> string)
    requires HasPageTitle(route, toc)
    requires UrlParts(route.path, decode) == []
    ensures Render(route, toc, opts, decode) == Wrapper(HomeSlot(route.path, opts), "", opts)
  {
    var up := UrlParts(route.path, decode);
    var t := Trail(SanitizeParts(up), up, PageTitle(route, toc));
    assert |t| == 0;
  }
}
