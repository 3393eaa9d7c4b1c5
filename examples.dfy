/** The documented cases of the breadcrumb plugin. The route of the documented
    case is `articles/books-and-more/adventure` with the page title "Books and
    More"; the scenarios below state it for any three segments, and the
    markup lemmas give the exact strings under the default options. */
module BreadcrumbExamples {
  import opened JsStrings
  import opened Breadcrumb

  /** A segment that the filter keeps and that holds no separator. */
  predicate PlainSegment(s: string) {
    !Excluded(s) && '/' !in s
  }

  /** A string with none of `.`, `_`, `-`. */
  predicate NoPunct(s: string) {
    forall i :: 0 <= i < |s| ==> !IsPunct(s[i])
  }

  lemma SanitizeClean(s: string)
    requires NoPunct(s)
    ensures SanitizePart(s) == s
  {
  }

  /** Hyphens become spaces: `books-and-more` reads `books and more`. */
  lemma SanitizeHyphenated(x: string, y: string, z: string)
    requires NoPunct(x) && NoPunct(y) && NoPunct(z)
    ensures SanitizePart(x + "-" + y + "-" + z) == x + " " + y + " " + z
  {
    SanitizeClean(x);
    SanitizeClean(y);
    SanitizeClean(z);
    SanitizePartAppend(x + "-" + y + "-", z);
    SanitizePartAppend(x + "-" + y, "-");
    SanitizePartAppend(x + "-", y);
    SanitizePartAppend(x, "-");
    assert SanitizePart("-") == " ";
  }

  lemma JoinOfThree(a: string, b: string, c: string)
    ensures Join([a, b, c], "/") == a + "/" + b + "/" + c
  {
    var parts := [a, b, c];
    assert parts[1..] == [b, c];
    assert Join([b, c], "/") == b + "/" + c by { assert [b, c][1..] == [c]; }
    assert Join(parts, "/") == a + "/" + Join([b, c], "/");
  }

  /** A path of three plain segments splits into exactly those segments. */
  lemma UrlPartsOfThree(url: string, decode: string -> string, a: string, b: string, c: string)
    requires PlainSegment(a) && PlainSegment(b) && PlainSegment(c)
    requires decode(url) == a + "/" + b + "/" + c
    ensures UrlParts(url, decode) == [a, b, c]
  {
    var parts := [a, b, c];
    JoinOfThree(a, b, c);
    SplitJoin(parts, '/');
    assert parts[1..] == [b, c];
    assert parts[1..][1..] == [c];
    assert KeepSegments([c]) == [c] by { assert [c][1..] == []; }
    assert KeepSegments([b, c]) == [b] + KeepSegments([c]);
    assert KeepSegments(parts) == [a] + KeepSegments([b, c]);
  }

  /** The links through the first part, the first two and all three. */
  lemma ItemLinksOfThree(a: string, b: string, c: string)
    ensures ItemLink([a, b, c], 1) == "#/" + a + "/"
    ensures ItemLink([a, b, c], 2) == "#/" + a + "/" + b + "/"
    ensures ItemLink([a, b, c], 3) == "#/" + a + "/" + b + "/" + c + "/"
  {
    var parts := [a, b, c];
    assert parts[..1] == [a];
    assert parts[..2] == [a, b];
    assert parts[..3] == parts;
    assert Join([a, b], "/") == a + "/" + b by { assert [a, b][1..] == [b]; }
    JoinOfThree(a, b, c);
  }

  /** Two links, then the current page's title in place of the last part. */
  lemma ListItemsOfThree(readable: seq<string>, a: string, b: string, c: string, title: string, opts: Options)
    requires |readable| == 3
    ensures ListItems(readable, [a, b, c], title, opts) ==
            LinkItem("#/" + a + "/", readable[0], opts) +
            LinkItem("#/" + a + "/" + b + "/", readable[1], opts) +
            CurrentItem(title)
  {
    ItemLinksOfThree(a, b, c);
    var t := Trail(readable, [a, b, c], title);
    assert t[0] == Link("#/" + a + "/", readable[0]);
    assert t[1] == Link("#/" + a + "/" + b + "/", readable[1]);
    assert t[2] == Current(title);
    assert Serialize(t[2..], opts) == CurrentItem(title) by {
      assert t[2..][0] == t[2];
      assert t[2..][1..] == [];
    }
    assert Serialize(t[1..], opts) == EntryHtml(t[1], opts) + Serialize(t[2..], opts) by {
      assert t[1..][1..] == t[2..];
    }
  }

  /** The list items of three parts, labelled by their sanitized text. */
  lemma SanitizedListOfThree(a: string, b: string, c: string, title: string, opts: Options)
    ensures Serialize(Trail(SanitizeParts([a, b, c]), [a, b, c], title), opts) ==
            LinkItem("#/" + a + "/", SanitizePart(a), opts) +
            LinkItem("#/" + a + "/" + b + "/", SanitizePart(b), opts) +
            CurrentItem(title)
  {
    var readable := SanitizeParts([a, b, c]);
    assert readable[0] == SanitizePart(a) && readable[1] == SanitizePart(b);
    ListItemsOfThree(readable, a, b, c, title, opts);
  }

  /** The whole breadcrumb for a route of three plain segments: the home link
      with its separator, links to the first and the first two segments
      labelled by their readable text, then the title. */
  lemma RenderOfThree(route: Route, toc: TitleIndex, opts: Options, decode: string -> string,
                      a: string, b: string, c: string)
    requires HasPageTitle(route, toc)
    requires PlainSegment(a) && PlainSegment(b) && PlainSegment(c)
    requires decode(route.path) == route.path == a + "/" + b + "/" + c
    ensures Render(route, toc, opts, decode) ==
            Wrapper(HomeLink(false, opts),
                    LinkItem("#/" + a + "/", SanitizePart(a), opts) +
                    LinkItem("#/" + a + "/" + b + "/", SanitizePart(b), opts) +
                    CurrentItem(PageTitle(route, toc)),
                    opts)
  {
    UrlPartsOfThree(route.path, decode, a, b, c);
    SanitizedListOfThree(a, b, c, PageTitle(route, toc), opts);
    assert HomeSlot(route.path, opts) == HomeLink(false, opts) by {
      assert |route.path| >= 2;
    }
  }

  lemma DocumentedSegments(a: string, x: string, y: string, z: string, c: string)
    requires a == "articles" && x == "books" && y == "and" && z == "more" && c == "adventure"
    ensures PlainSegment(a) && PlainSegment(x + "-" + y + "-" + z) && PlainSegment(c)
    ensures NoPunct(a) && NoPunct(x) && NoPunct(y) && NoPunct(z)
  {
    var b := x + "-" + y + "-" + z;
    assert '/' !in b by { assert forall i :: 0 <= i < |b| ==> b[i] != '/'; }
  }

  /** The documented route: `articles/books-and-more/adventure` under the
      title "Books and More" renders links to `#/articles/` and
      `#/articles/books-and-more/`, the second labelled `books and more`. */
  lemma DocumentedRoute(route: Route, toc: TitleIndex, opts: Options, decode: string -> string,
                        a: string, x: string, y: string, z: string, c: string)
    requires a == "articles" && x == "books" && y == "and" && z == "more" && c == "adventure"
    requires route.path == route.file == a + "/" + (x + "-" + y + "-" + z) + "/" + c
    requires decode(route.path) == route.path
    requires toc == map[route.file := [Heading(1, "Books and More")]]
    ensures HasPageTitle(route, toc)
    ensures Render(route, toc, opts, decode) ==
            Wrapper(HomeLink(false, opts),
                    LinkItem("#/" + a + "/", a, opts) +
                    LinkItem("#/" + a + "/" + (x + "-" + y + "-" + z) + "/", x + " " + y + " " + z, opts) +
                    CurrentItem("Books and More"),
                    opts)
  {
    var b := x + "-" + y + "-" + z;
    PageTitleExample(toc, route);
    DocumentedSegments(a, x, y, z, c);
    SanitizeClean(a);
    SanitizeHyphenated(x, y, z);
    RenderOfThree(route, toc, opts, decode, a, b, c);
  }

  /** The documented title lookup. */
  lemma PageTitleExample(toc: TitleIndex, route: Route)
    requires route.file == "articles/books-and-more/adventure"
    requires toc == map[route.file := [Heading(1, "Books and More")]]
    ensures HasPageTitle(route, toc)
    ensures PageTitle(route, toc) == "Books and More"
  {
    assert toc[route.file][0].level == 1;
  }

  /** A link item with the default options. */
  lemma LinkItemExample()
    ensures LinkItem("#/articles/", "articles", DefaultOptions) ==
            "<li><a href=" + "#/articles/" + " style=\"color: " + "var(--theme-color, #42b983)" + "\">" +
            "articles" + "</a>" + " &rsaquo; " + "</li>"
  {
  }

  /** The current-page item. */
  lemma CurrentItemExample()
    ensures CurrentItem("Books and More") ==
            "<li class=\"active\" aria-current=\"page\">" + "Books and More" + "</li>"
  {
  }

  /** The home link on the home page. */
  lemma HomeLinkOnHomeExample()
    ensures HomeLink(true, DefaultOptions) ==
            "<li><a href='#/' style=\"color: " + "inherit" + "; font-weight:inherit;}\">" +
            ("Home" + "</a>" + "" + "</li>")
  {
  }

  /** The home link elsewhere. */
  lemma HomeLinkElsewhereExample()
    ensures HomeLink(false, DefaultOptions) ==
            "<li><a href='#/' style=\"color: " + "var(--theme-color, #42b983)" + "; }\">" +
            ("Home" + "</a>" + " &rsaquo; " + "</li>")
  {
  }

  /** The wrapper with the default size and casing. */
  lemma WrapperExample(homeLink: string, list: string)
    ensures Wrapper(homeLink, list, DefaultOptions) ==
            "\n  <nav aria-label=\"Breadcrumb\" class=\"breadcrumb\">\n    <ol\n      class=' breadcrumb--" + "small" +
            "'\n      style=\"text-transform:" + "capitalize" + "\"\n    >\n      " + homeLink + "\n      " + list +
            "\n    </ol>\n  </nav>\n"
  {
  }
}
