/**
 * The structured-data helpers of src/utils/seo.ts: the breadcrumb list of a
 * path, the page schema with its fallback to the home page, and the list
 * of schemas a page carries. The constant schema literals are represented
 * by their kind alone.
 */
module Seo {
  import opened Types

  const BaseUrl: string := "https://mapmykidz.com"

  // ---------------------------------------------------------------------------
  // path.split('/') and .filter(Boolean) (seo.ts:213)
  // ---------------------------------------------------------------------------

  /** The pieces joined back with '/' between them: the inverse of Split. */
  function JoinWith(parts: seq<string>): string
    requires |parts| >= 1
    decreases |parts|
  {
    if |parts| == 1 then parts[0] else parts[0] + "/" + JoinWith(parts[1..])
  }

  /** A piece that holds no separator. */
  predicate NoSlash(s: string)
  {
    '/' !in s
  }

  /** String.prototype.split('/'): the maximal '/'-free pieces, empty ones included. */
  function Split(s: string): (parts: seq<string>)
    ensures |parts| >= 1
    ensures forall i :: 0 <= i < |parts| ==> NoSlash(parts[i])
    decreases |s|
  {
    if |s| == 0 then [""]
    else
      var rest := Split(s[1..]);
      if s[0] == '/' then [""] + rest
      else
        assert NoSlash([s[0]] + rest[0]);
        [[s[0]] + rest[0]] + rest[1..]
  }

  /** Splitting around one separator splits each side. */
  lemma {:induction false} SplitConcat(a: string, b: string)
    ensures Split(a + "/" + b) == Split(a) + Split(b)
    decreases |a|
  {
    var s := a + "/" + b;
    if |a| == 0 {
      assert s == "/" + b && s[1..] == b;
    } else {
      assert s[0] == a[0] && s[1..] == a[1..] + "/" + b;
      SplitConcat(a[1..], b);
      var r := Split(a[1..]);
      if a[0] != '/' {
        assert Split(s) == [[a[0]] + r[0]] + (r[1..] + Split(b));
      }
    }
  }

  /** A '/'-free string is a single piece. */
  lemma {:induction false} SplitNoSlash(s: string)
    requires NoSlash(s)
    ensures Split(s) == [s]
    decreases |s|
  {
    if |s| > 0 {
      assert s[0] != '/';
      assert NoSlash(s[1..]) by {
        forall i | 0 <= i < |s| - 1
          ensures s[1..][i] != '/'
        {
          assert s[1..][i] == s[i + 1];
        }
      }
      SplitNoSlash(s[1..]);
      assert [s[0]] + s[1..] == s;
    }
  }

  /** Joining the pieces gives the string back. */
  lemma {:induction false} JoinSplit(s: string)
    ensures JoinWith(Split(s)) == s
    decreases |s|
  {
    if |s| > 0 {
      JoinSplit(s[1..]);
      var r := Split(s[1..]);
      if s[0] == '/' {
        assert JoinWith([""] + r) == "" + "/" + JoinWith(r);
      } else if |r| == 1 {
        assert JoinWith([[s[0]] + r[0]]) == [s[0]] + r[0];
      } else {
        var p := [[s[0]] + r[0]] + r[1..];
        assert p[1..] == r[1..];
        assert JoinWith(p) == ([s[0]] + r[0]) + "/" + JoinWith(r[1..]);
        assert JoinWith(r) == r[0] + "/" + JoinWith(r[1..]);
      }
    }
  }

  /** Splitting the join of '/'-free pieces gives the pieces back. */
  lemma {:induction false} SplitJoin(parts: seq<string>)
    requires |parts| >= 1 && forall i :: 0 <= i < |parts| ==> NoSlash(parts[i])
    ensures Split(JoinWith(parts)) == parts
    decreases |parts|
  {
    SplitNoSlash(parts[0]);
    if |parts| > 1 {
      SplitJoin(parts[1..]);
      SplitConcat(parts[0], JoinWith(parts[1..]));
      assert [parts[0]] + parts[1..] == parts;
    }
  }

  /** filter(Boolean) on strings: the non-empty ones, in order. */
  function NonEmpty(parts: seq<string>): (r: seq<string>)
    ensures |r| <= |parts|
    ensures forall i :: 0 <= i < |r| ==> r[i] != [] && r[i] in parts
    decreases |parts|
  {
    if |parts| == 0 then []
    else if parts[0] == [] then NonEmpty(parts[1..])
    else [parts[0]] + NonEmpty(parts[1..])
  }

  /** Filtering a concatenation filters each part. */
  lemma {:induction false} NonEmptyConcat(a: seq<string>, b: seq<string>)
    ensures NonEmpty(a + b) == NonEmpty(a) + NonEmpty(b)
    decreases |a|
  {
    if |a| > 0 {
      assert (a + b)[0] == a[0] && (a + b)[1..] == a[1..] + b;
      NonEmptyConcat(a[1..], b);
    } else {
      assert a + b == b;
    }
  }

  /** The path segments of a path. */
  function Segments(path: string): (segs: seq<string>)
    ensures forall i :: 0 <= i < |segs| ==> segs[i] != [] && NoSlash(segs[i])
  {
    NonEmpty(Split(path))
  }

  /** Segments are found on each side of a separator independently. */
  lemma SegmentsConcat(a: string, b: string)
    ensures Segments(a + "/" + b) == Segments(a) + Segments(b)
  {
    SplitConcat(a, b);
    NonEmptyConcat(Split(a), Split(b));
  }

  /** Empty segments vanish: a doubled, leading or trailing '/' changes nothing. */
  lemma EmptySegmentsDropped(a: string, b: string)
    ensures Segments(a + "//" + b) == Segments(a + "/" + b)
    ensures Segments("/" + b) == Segments(b)
    ensures Segments(a + "/") == Segments(a)
  {
    assert Segments("") == [];
    SegmentsConcat(a, "/" + b);
    SegmentsConcat("", b);
    SegmentsConcat(a, b);
    assert a + "//" + b == a + "/" + ("/" + b);
    assert "" + "/" + b == "/" + b;
    SegmentsConcat(a, "");
    assert a + "/" + "" == a + "/";
  }

  /** The path '/' + s1 + '/' + ... + '/' + sn of non-empty '/'-free segments has exactly those segments. */
  lemma SegmentsOfPath(segs: seq<string>)
    requires |segs| >= 1 && forall i :: 0 <= i < |segs| ==> segs[i] != [] && NoSlash(segs[i])
    ensures Segments("/" + JoinWith(segs)) == segs
  {
    var j := JoinWith(segs);
    SplitJoin(segs);
    AllNonEmpty(segs);
    EmptySegmentsDropped("", j);
  }

  lemma {:induction false} AllNonEmpty(parts: seq<string>)
    requires forall i :: 0 <= i < |parts| ==> parts[i] != []
    ensures NonEmpty(parts) == parts
    decreases |parts|
  {
    if |parts| > 0 {
      AllNonEmpty(parts[1..]);
      assert [parts[0]] + parts[1..] == parts;
    }
  }

  // ---------------------------------------------------------------------------
  // getBreadcrumbSchema (seo.ts:211-245)
  // ---------------------------------------------------------------------------

  /** A ListItem of the breadcrumb list. */
  datatype ListItem = ListItem(position: int, name: string, item: string)

  const Home: ListItem := ListItem(1, "Home", BaseUrl)

  /** toUpperCase on one character, for the ASCII letters. */
  function Upper(c: char): (u: char)
    ensures 'a' <= c <= 'z' ==> 'A' <= u <= 'Z' && u as int == c as int - 32
    ensures !('a' <= c <= 'z') ==> u == c
  {
    if 'a' <= c <= 'z' then (c as int - 32) as char else c
  }

  /** charAt(0).toUpperCase() + slice(1). */
  function Capitalize(s: string): (r: string)
    ensures |r| == |s|
    ensures |s| > 0 ==> r[0] == Upper(s[0]) && r[1..] == s[1..]
  {
    if |s| == 0 then "" else [Upper(s[0])] + s[1..]
  }

  /** currentPath after the given segments: '/' before each one. */
  function PathOf(segs: seq<string>): string
    decreases |segs|
  {
    if |segs| == 0 then "" else PathOf(segs[..|segs| - 1]) + "/" + segs[|segs| - 1]
  }

  /** The list item of segment k (from 0): position k + 2, the capitalised segment, the URL of the path so far. */
  function Crumb(segs: seq<string>, k: int): ListItem
    requires 0 <= k < |segs|
  {
    ListItem(k + 2, Capitalize(segs[k]), BaseUrl + PathOf(segs[..k + 1]))
  }

  /** The breadcrumb list of a path: Home, then one item per segment. */
  function Breadcrumbs(path: string): seq<ListItem>
  {
    var segs := Segments(path);
    [Home] + seq(|segs|, k requires 0 <= k < |segs| => Crumb(segs, k))
  }

  /** The forEach over the segments, extending currentPath and pushing one item per segment. */
  method BreadcrumbSchema(path: string) returns (items: seq<ListItem>)
    ensures items == Breadcrumbs(path)
  {
    var segments := Segments(path);
    items := [Home];
    var currentPath := "";
    var index := 0;
    while index < |segments|
      invariant 0 <= index <= |segments|
      invariant currentPath == PathOf(segments[..index])
      invariant |items| == index + 1 && items[0] == Home
      invariant forall j :: 0 <= j < index ==> items[j + 1] == Crumb(segments, j)
    {
      var segment := segments[index];
      assert segments[..index + 1][..index] == segments[..index];
      currentPath := currentPath + "/" + segment;
      var name := Capitalize(segment);
      items := items + [ListItem(index + 2, name, BaseUrl + currentPath)];
      index := index + 1;
    }
  }

  /** JoinWith of one more piece. */
  lemma {:induction false} JoinAppend(parts: seq<string>, x: string)
    requires |parts| >= 1
    ensures JoinWith(parts + [x]) == JoinWith(parts) + "/" + x
    decreases |parts|
  {
    if |parts| > 1 {
      JoinAppend(parts[1..], x);
      assert (parts + [x])[1..] == parts[1..] + [x];
    } else {
      assert (parts + [x])[1..] == [x];
    }
  }

  /** currentPath after k >= 1 segments is '/' followed by those segments joined by '/'. */
  lemma {:induction false} PathOfJoin(segs: seq<string>)
    requires |segs| >= 1
    ensures PathOf(segs) == "/" + JoinWith(segs)
    decreases |segs|
  {
    var init := segs[..|segs| - 1];
    var last := segs[|segs| - 1];
    assert init + [last] == segs;
    if |segs| == 1 {
      assert PathOf(init) == "";
    } else {
      PathOfJoin(init);
      JoinAppend(init, last);
    }
  }

  /**
   * The breadcrumb list has one item more than the path has segments; the
   * positions run 1, 2, ..., n + 1; the first item is Home at the base URL.
   */
  lemma BreadcrumbsShape(path: string)
    ensures var b := Breadcrumbs(path);
            && |b| == |Segments(path)| + 1
            && b[0] == ListItem(1, "Home", BaseUrl)
            && forall i :: 0 <= i < |b| ==> b[i].position == i + 1
  {
  }

  /**
   * Item k (k >= 1) names the k-th segment capitalised, and links to the
   * base URL followed by '/' and the first k segments joined by '/'.
   */
  lemma BreadcrumbItem(path: string, k: int)
    requires 1 <= k <= |Segments(path)|
    ensures var b := Breadcrumbs(path);
            var segs := Segments(path);
            && |b| == |segs| + 1
            && b[k].name == Capitalize(segs[k - 1])
            && b[k].item == BaseUrl + "/" + JoinWith(segs[..k])
  {
    var segs := Segments(path);
    assert segs[..k - 1 + 1] == segs[..k];
    PathOfJoin(segs[..k]);
  }

  // ---------------------------------------------------------------------------
  // getPageSchema and getPageSchemas (seo.ts:248-330)
  // ---------------------------------------------------------------------------

  /** The constant schemas, represented by their kind. */
  datatype Entity = Organization | WebApplication | Faq | HowTo | MedicalApplication

  /** The configured pages; name and description of each are represented by the page. */
  datatype Page = HomePage | InputPage | ResultsPage | AboutPage | FaqPage | ContactPage

  /** The configuration of a page: its name and description (the page) and its main entity, if any. */
  datatype PageConfig = PageConfig(page: Page, mainEntity: Option<Entity>)

  /** pageConfigs[path]: the six configured paths. */
  function ConfigOf(path: string): (c: Option<PageConfig>)
    ensures c.Some? <==> path in {"/", "/input", "/results", "/about", "/faq", "/contact"}
  {
    if path == "/" then Some(PageConfig(HomePage, Some(WebApplication)))
    else if path == "/input" then Some(PageConfig(InputPage, Some(HowTo)))
    else if path == "/results" then Some(PageConfig(ResultsPage, None))
    else if path == "/about" then Some(PageConfig(AboutPage, Some(Faq)))
    else if path == "/faq" then Some(PageConfig(FaqPage, Some(Faq)))
    else if path == "/contact" then Some(PageConfig(ContactPage, None))
    else None
  }

  /** The WebPage schema: name, description and main entity of the page, its URL and its breadcrumb list. */
  datatype WebPage = WebPage(config: PageConfig, url: string, breadcrumb: seq<ListItem>)

  /**
   * getPageSchema: the configuration of the path, or of '/' when the path
   * has none; the URL and the breadcrumb list always come from the path itself.
   */
  function PageSchema(path: string): (w: WebPage)
    ensures ConfigOf(path).Some? ==> w.config == ConfigOf(path).value
    ensures ConfigOf(path).None? ==> w.config == PageConfig(HomePage, Some(WebApplication))
    ensures w.url == BaseUrl + path
    ensures w.breadcrumb == Breadcrumbs(path)
  {
    var config := match ConfigOf(path) case Some(c) => c case None => ConfigOf("/").value;
    WebPage(config, BaseUrl + path, Breadcrumbs(path))
  }

  /** An unknown path gets the home page's name, description and main entity, but keeps its own URL and breadcrumbs. */
  lemma UnknownPathFallback(path: string)
    requires ConfigOf(path).None?
    ensures PageSchema(path).config == PageSchema("/").config
    ensures PageSchema(path).url == BaseUrl + path
    ensures PageSchema(path).breadcrumb == Breadcrumbs(path)
  {
  }

  /** One entry of getPageSchemas: a constant schema or the page's WebPage schema. */
  datatype Schema = Constant(entity: Entity) | PageOf(page: WebPage)

  /** The extra schema a path adds after the organization and page schemas. */
  function ExtraSchema(path: string): (e: Option<Entity>)
    ensures e.Some? <==> path in {"/", "/about", "/faq", "/input"}
  {
    if path == "/" then Some(MedicalApplication)
    else if path == "/about" then Some(Faq)
    else if path == "/faq" then Some(Faq)
    else if path == "/input" then Some(HowTo)
    else None
  }

  /**
   * getPageSchemas: the organization schema, the page schema and, for '/',
   * '/about', '/faq' and '/input' only, one more schema pushed after them.
   */
  method PageSchemas(path: string) returns (schemas: seq<Schema>)
    ensures |schemas| == if ExtraSchema(path).Some? then 3 else 2
    ensures schemas[0] == Constant(Organization) && schemas[1] == PageOf(PageSchema(path))
    ensures ExtraSchema(path).Some? ==> schemas[2] == Constant(ExtraSchema(path).value)
  {
    schemas := [Constant(Organization), PageOf(PageSchema(path))];
    if path == "/" {
      schemas := schemas + [Constant(MedicalApplication)];
    } else if path == "/about" {
      schemas := schemas + [Constant(Faq)];
    } else if path == "/faq" {
      schemas := schemas + [Constant(Faq)];
    } else if path == "/input" {
      schemas := schemas + [Constant(HowTo)];
    }
  }
}
