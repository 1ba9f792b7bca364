/**
 * The content manager (js/contentManager.js): resolves a content id and a
 * declared language to markup, mounts it on the single editor surface,
 * remembers the last rendered content and searches its lines.
 *
 * The 50 ms deferred body of `loadContent` runs here as one atomic step,
 * and the DOM surface is reduced to the fields it carries: whether the
 * welcome screen shows, and what is mounted with which container class.
 */
module Content {
  import opened Wrappers
  import opened Strings
  import opened Records

  /**
   * The five imported markup modules, keyed as the content map keys them.
   * A module whose global is undefined is `None`.
   */
  datatype Store = Store(
    about: Option<string>,
    projects: Option<string>,
    skills: Option<string>,
    experience: Option<string>,
    contact: Option<string>)

  /** The five keys of the content map. */
  predicate IsStoreKey(key: string)
  {
    key == "about" || key == "projects" || key == "skills" || key == "experience" || key == "contact"
  }

  /** `contentMap[key]`: the markup the store holds under one of its five keys. */
  function StoreLookup(store: Store, key: string): (r: Option<string>)
    ensures !IsStoreKey(key) ==> r.None?
  {
    if key == "about" then store.about
    else if key == "projects" then store.projects
    else if key == "skills" then store.skills
    else if key == "experience" then store.experience
    else if key == "contact" then store.contact
    else None
  }

  /** The fixed markup shown for an id the store cannot resolve. */
  const NotFoundMarkup: string :=
    "<div class=\"content-section\"><h1>Content not found</h1><p>The requested content could not be loaded.</p></div>"

  /** The part of a content id that is looked up: everything before the first `/`. */
  function BaseId(contentId: string): (r: string)
    ensures '/' !in r
    ensures IsPrefix(r, contentId)
    ensures |r| < |contentId| ==> contentId[|r|] == '/'
  {
    FirstSegment(contentId, '/')
  }

  /** The viewer's file name: the active tab's label, or `cv.pdf` when there is none. */
  function PdfFileName(active: Option<Tab>): (r: string)
    ensures r != ""
    ensures active.Some? && active.value.title != "" ==> r == active.value.title
    ensures active.None? || active.value.title == "" ==> r == "cv.pdf"
  {
    if active.Some? && active.value.title != "" then active.value.title else "cv.pdf"
  }

  /** The viewer's link: the active tab's url, or `/` followed by the file name. */
  function PdfUrl(active: Option<Tab>, fileName: string): (r: string)
    ensures active.Some? && active.value.url.Some? && active.value.url.value != "" ==> r == active.value.url.value
    ensures (active.None? || OrNull(active.value.url).None?) ==> r == "/" + fileName
  {
    if active.Some? then OrElse(active.value.url, "/" + fileName) else "/" + fileName
  }

  function Spaces(n: nat): (r: string)
    ensures |r| == n && forall k :: 0 <= k < n ==> r[k] == ' '
  {
    seq(n, _ => ' ')
  }

  /** A piece of a template line: fixed text, or the file name or link filled in. */
  datatype Piece = Text(text: string) | FileNameSlot | FileUrlSlot

  /** The PDF viewer template, one line per entry, indentation included. */
  const PdfTemplate: seq<seq<Piece>> := [
    [],
    [Text(Spaces(16) + "<div class=\"content-section pdf-viewer\">")],
    [Text(Spaces(20) + "<div class=\"pdf-toolbar\">")],
    [Text(Spaces(24) + "<div class=\"pdf-title\"><i class=\"codicon codicon-file-pdf\"></i> "), FileNameSlot, Text("</div>")],
    [Text(Spaces(24) + "<div class=\"pdf-actions\">")],
    [Text(Spaces(28) + "<a class=\"pdf-button\" href=\""), FileUrlSlot, Text("\" download>")],
    [Text(Spaces(32) + "<i class=\"codicon codicon-cloud-download\"></i>")],
    [Text(Spaces(32) + "<span>Download</span>")],
    [Text(Spaces(28) + "</a>")],
    [Text(Spaces(28) + "<a class=\"pdf-button\" href=\""), FileUrlSlot, Text("\" target=\"_blank\" rel=\"noopener\">")],
    [Text(Spaces(32) + "<i class=\"codicon codicon-open-preview\"></i>")],
    [Text(Spaces(32) + "<span>Open in new tab</span>")],
    [Text(Spaces(28) + "</a>")],
    [Text(Spaces(24) + "</div>")],
    [Text(Spaces(20) + "</div>")],
    [Text(Spaces(20) + "<div class=\"pdf-frame-wrap\">")],
    [Text(Spaces(24) + "<object data=\""), FileUrlSlot, Text("#view=FitH\" type=\"application/pdf\" class=\"pdf-frame\">")],
    [Text(Spaces(28) + "<iframe src=\""), FileUrlSlot, Text("#view=FitH\" class=\"pdf-frame\"></iframe>")],
    [Text(Spaces(24) + "</object>")],
    [Text(Spaces(20) + "</div>")],
    [Text(Spaces(16) + "</div>")],
    [Text(Spaces(12))]]

  /** One template line with the slots filled. */
  function FillLine(line: seq<Piece>, fileName: string, fileUrl: string): string
  {
    if line == [] then ""
    else
      var head := match line[0]
        case Text(t) => t
        case FileNameSlot => fileName
        case FileUrlSlot => fileUrl;
      head + FillLine(line[1..], fileName, fileUrl)
  }

  /** A line with one slot between two texts reads the first text, the slot's value, then the second. */
  lemma FilledSlot(pre: string, slot: Piece, post: string, fileName: string, fileUrl: string)
    requires !slot.Text?
    ensures FillLine([Text(pre), slot, Text(post)], fileName, fileUrl)
            == pre + (if slot.FileNameSlot? then fileName else fileUrl) + post
  {
    var value := if slot.FileNameSlot? then fileName else fileUrl;
    var last := [Text(post)];
    assert last[1..] == [];
    assert FillLine(last, fileName, fileUrl) == post;
    var tail := [slot, Text(post)];
    assert tail[1..] == last;
    assert FillLine(tail, fileName, fileUrl) == value + post;
    var line := [Text(pre), slot, Text(post)];
    assert line[1..] == tail;
  }

  /** Every template line filled. */
  function FillLines(lines: seq<seq<Piece>>, fileName: string, fileUrl: string): (r: seq<string>)
    ensures |r| == |lines|
    ensures forall i :: 0 <= i < |r| ==> r[i] == FillLine(lines[i], fileName, fileUrl)
  {
    if lines == [] then [] else [FillLine(lines[0], fileName, fileUrl)] + FillLines(lines[1..], fileName, fileUrl)
  }

  /** The PDF viewer markup: the filled template lines joined by line breaks. */
  function PdfViewer(fileName: string, fileUrl: string): (r: string)
    ensures r != ""
    ensures Contains(r, fileName) && Contains(r, fileUrl)
  {
    var lines := FillLines(PdfTemplate, fileName, fileUrl);
    assert |lines| == 22;
    var title := PdfTemplate[3];
    var download := PdfTemplate[5];
    FilledSlot(title[0].text, FileNameSlot, title[2].text, fileName, fileUrl);
    FilledSlot(download[0].text, FileUrlSlot, download[2].text, fileName, fileUrl);
    ContainsMiddle(title[0].text, fileName, title[2].text);
    ContainsMiddle(download[0].text, fileUrl, download[2].text);
    JoinContains(lines, '\n', 3, fileName);
    JoinContains(lines, '\n', 5, fileUrl);
    Join(lines, '\n')
  }

  /**
   * `getContent`: for language `pdf` the viewer for the active tab's file;
   * otherwise the store's markup under the base id, falling back to the
   * not-found markup when the key is unknown or its value is empty or
   * undefined. The result is never empty, so a load always renders.
   */
  function GetContent(store: Store, contentId: string, language: string, active: Option<Tab>): (r: string)
    ensures r != ""
    ensures language == "pdf" ==>
              r == PdfViewer(PdfFileName(active), PdfUrl(active, PdfFileName(active)))
    ensures language != "pdf" && OrNull(StoreLookup(store, BaseId(contentId))).Some? ==>
              r == StoreLookup(store, BaseId(contentId)).value
    ensures language != "pdf" && OrNull(StoreLookup(store, BaseId(contentId))).None? ==>
              r == NotFoundMarkup
  {
    if language == "pdf" then
      var fileName := PdfFileName(active);
      var fileUrl := PdfUrl(active, fileName);
      PdfViewer(fileName, fileUrl)
    else
      OrElse(StoreLookup(store, BaseId(contentId)), NotFoundMarkup)
  }

  /** A content id with a subpath resolves exactly like its base segment. */
  lemma SubpathResolvesLikeBase(store: Store, contentId: string, language: string, active: Option<Tab>)
    ensures GetContent(store, contentId, language, active) == GetContent(store, BaseId(contentId), language, active)
  {
    assert BaseId(BaseId(contentId)) == BaseId(contentId);
  }

  /** An id made of a slash-free base, a `/` and any subpath has that base. */
  lemma BaseIdOfSubpath(base: string, subpath: string)
    requires '/' !in base
    ensures BaseId(base + "/" + subpath) == base
  {
    var id := base + "/" + subpath;
    var r := BaseId(id);
    assert id[|base|] == '/';
    assert forall k :: 0 <= k < |base| ==> id[k] == base[k] && base[k] in base;
    assert forall k :: 0 <= k < |r| ==> r[k] == id[k] && r[k] in r;
    assert |r| == |base|;
    assert id[..|base|] == base;
  }

  /** `projects/web-server.go` is looked up under `projects`. */
  lemma ProjectsSubpath(store: Store, active: Option<Tab>)
    ensures BaseId("projects/web-server.go") == "projects"
    ensures GetContent(store, "projects/web-server.go", "go", active) == GetContent(store, "projects", "go", active)
  {
    assert "projects/web-server.go" == "projects" + "/" + "web-server.go";
    assert '/' !in "projects";
    BaseIdOfSubpath("projects", "web-server.go");
    SubpathResolvesLikeBase(store, "projects/web-server.go", "go", active);
  }

  /** An id whose base is not one of the five keys renders the not-found markup, whatever the store holds. */
  lemma UnknownIdNotFound(store: Store, contentId: string, language: string, active: Option<Tab>)
    requires language != "pdf" && !IsStoreKey(BaseId(contentId))
    ensures GetContent(store, contentId, language, active) == NotFoundMarkup
  {
  }

  /** The class of the mounted container: no line numbers for a PDF. */
  function ContainerClass(language: string): (r: string)
    ensures r == "editor-content no-line-numbers" <==> language == "pdf"
    ensures r == "editor-content line-numbers" <==> language != "pdf"
  {
    "editor-content" + (if language == "pdf" then " no-line-numbers" else " line-numbers")
  }

  /**
   * Whether a `<pre>` of the mounted markup ends up with the `line-numbers`
   * class: `nested` says it sits inside an element marked `no-line-numbers`
   * within the markup, `hasLanguageCode` that it holds a `language-*` code
   * element. The container itself counts as an enclosing element.
   */
  function PreHasLineNumbers(language: string, nested: bool, hasLanguageCode: bool): (r: bool)
    ensures r ==> language != "pdf" && hasLanguageCode
    ensures r <== language != "pdf" && !nested && hasLanguageCode
    ensures nested ==> !r
  {
    var insideNoNumbers := nested || ContainerClass(language) == "editor-content no-line-numbers";
    !insideNoNumbers && hasLanguageCode
  }

  /** The last rendered content, as `loadContent` records it. */
  datatype Rendered = Rendered(id: string, language: string, content: string)

  /** What the editor surface holds: markup in a container of some class, and whether highlighting was requested. */
  datatype Mount = Mount(containerClass: string, markup: string, highlightRequested: bool)

  /** One search result: a 1-based line number, the trimmed line, and its first 100 characters. */
  datatype Hit = Hit(line: nat, text: string, preview: string)

  /** A line matches when its lowercase form contains the lowercase query. */
  predicate LineMatches(line: string, query: string)
  {
    Contains(Lower(line), Lower(query))
  }

  /** `h` reports a matching line of `lines`, trimmed and previewed. */
  predicate IsHit(lines: seq<string>, query: string, h: Hit)
  {
    && 1 <= h.line <= |lines|
    && LineMatches(lines[h.line - 1], query)
    && h.text == Trim(lines[h.line - 1])
    && h.preview == Take(h.text, 100)
  }

  /** The hit for line number `n` (1-based): the trimmed line and its first 100 characters. */
  function HitAt(lines: seq<string>, n: nat): (h: Hit)
    requires 1 <= n <= |lines|
    ensures h.line == n && h.text == Trim(lines[n - 1])
    ensures |h.preview| <= 100 && IsPrefix(h.preview, h.text)
  {
    var text := Trim(lines[n - 1]);
    Hit(n, text, Take(text, 100))
  }

  /** The results of searching the first `n` lines for `query`, in line order. */
  function SearchLines(lines: seq<string>, query: string, n: nat): (r: seq<Hit>)
    requires n <= |lines|
    ensures |r| <= n
    ensures forall k :: 0 <= k < |r| ==> 1 <= r[k].line <= n
    decreases n
  {
    if n == 0 then []
    else SearchLines(lines, query, n - 1) + (if LineMatches(lines[n - 1], query) then [HitAt(lines, n)] else [])
  }

  /**
   * `hits` are the results of searching the first `upto` lines: every hit
   * reports a matching line among them, the line numbers strictly increase,
   * and every matching line among them is reported.
   */
  predicate SearchedUpTo(lines: seq<string>, query: string, hits: seq<Hit>, upto: nat)
  {
    && (forall k :: 0 <= k < |hits| ==> IsHit(lines, query, hits[k]) && hits[k].line <= upto)
    && LinesIncrease(hits)
    && (forall j :: 0 <= j < upto && MatchesAt(lines, query, j) ==> Reported(hits, j))
  }

  /** The line numbers of `hits` strictly increase. */
  predicate LinesIncrease(hits: seq<Hit>)
  {
    forall k, m :: 0 <= k < m < |hits| ==> hits[k].line < hits[m].line
  }

  /** Line `j` (0-based) of `lines` matches the query. */
  predicate MatchesAt(lines: seq<string>, query: string, j: int)
  {
    0 <= j < |lines| && LineMatches(lines[j], query)
  }

  /** Some hit reports line `j` (0-based), that is line number `j + 1`. */
  predicate Reported(hits: seq<Hit>, j: int)
  {
    exists k :: 0 <= k < |hits| && hits[k].line == j + 1
  }

  /** Every result reports a matching line, trimmed and previewed. */
  lemma {:induction false} SearchSound(lines: seq<string>, query: string, n: nat)
    requires n <= |lines|
    ensures forall k :: 0 <= k < |SearchLines(lines, query, n)| ==> IsHit(lines, query, SearchLines(lines, query, n)[k])
    decreases n
  {
    if n > 0 {
      SearchSound(lines, query, n - 1);
      var prev := SearchLines(lines, query, n - 1);
      var r := SearchLines(lines, query, n);
      assert forall k :: 0 <= k < |prev| ==> r[k] == prev[k];
    }
  }

  /** The results come in strictly increasing line order, so no line is reported twice. */
  lemma {:induction false} SearchOrdered(lines: seq<string>, query: string, n: nat)
    requires n <= |lines|
    ensures LinesIncrease(SearchLines(lines, query, n))
    decreases n
  {
    if n > 0 {
      SearchOrdered(lines, query, n - 1);
      var prev := SearchLines(lines, query, n - 1);
      var r := SearchLines(lines, query, n);
      forall k, m | 0 <= k < m < |r| ensures r[k].line < r[m].line {
        assert r[k] == prev[k] && prev[k].line < n;
        if m < |prev| {
          assert r[m] == prev[m] && prev[k].line < prev[m].line;
        } else {
          assert r[m] == HitAt(lines, n);
        }
      }
    }
  }

  /** Every matching line among the first `n` is reported. */
  lemma {:induction false} SearchComplete(lines: seq<string>, query: string, n: nat)
    requires n <= |lines|
    ensures forall j :: 0 <= j < n && MatchesAt(lines, query, j) ==> Reported(SearchLines(lines, query, n), j)
    decreases n
  {
    if n > 0 {
      SearchComplete(lines, query, n - 1);
      var prev := SearchLines(lines, query, n - 1);
      var r := SearchLines(lines, query, n);
      forall j | 0 <= j < n && MatchesAt(lines, query, j) ensures Reported(r, j) {
        if j < n - 1 {
          var k :| 0 <= k < |prev| && prev[k].line == j + 1;
          assert r[k] == prev[k];
        } else {
          assert r[|r| - 1].line == n;
        }
      }
    }
  }

  /** The search results meet the search contract: sound, ordered and complete. */
  lemma SearchLinesMeets(lines: seq<string>, query: string, n: nat)
    requires n <= |lines|
    ensures SearchedUpTo(lines, query, SearchLines(lines, query, n), n)
  {
    SearchSound(lines, query, n);
    SearchOrdered(lines, query, n);
    SearchComplete(lines, query, n);
  }

  /**
   * The content manager. `currentContent` is the cached last rendering that
   * `search` reads; `welcomeVisible` and `mounted` stand for the welcome
   * screen's display style and the editor element's children.
   */
  class ContentManager {
    const store: Store
    var currentContent: Option<Rendered>
    var welcomeVisible: bool
    var mounted: Option<Mount>

    /** Nothing rendered yet; the editor holds the welcome screen. */
    constructor(store: Store)
      ensures this.store == store
      ensures currentContent == None && welcomeVisible && mounted == None
    {
      this.store := store;
      currentContent := None;
      welcomeVisible := true;
      mounted := None;
    }

    /** The state a load of `contentId` as `language`, with `active` the active tab, leaves behind. */
    ghost predicate Displays(contentId: string, language: string, active: Option<Tab>)
      reads this
    {
      var markup := GetContent(store, contentId, language, active);
      && currentContent == Some(Rendered(contentId, language, markup))
      && !welcomeVisible
      && mounted == Some(Mount(ContainerClass(language), markup, language != "pdf"))
    }

    /**
     * `loadContent` with its deferred body run at once: the welcome screen
     * is hidden, the resolved markup is recorded as the current content and
     * mounted. `active` is the tab the PDF viewer reads its name and link from.
     */
    method LoadContent(contentId: string, language: string, active: Option<Tab>)
      modifies this
      ensures Displays(contentId, language, active)
    {
      welcomeVisible := false;
      var content := GetContent(store, contentId, language, active);
      if content != "" {
        currentContent := Some(Rendered(contentId, language, content));
        RenderContent(content, language);
      }
    }

    /** `renderContent`: a full replacement of the surface; highlighting is requested except for a PDF. */
    method RenderContent(content: string, language: string)
      modifies this
      ensures mounted == Some(Mount(ContainerClass(language), content, language != "pdf"))
      ensures currentContent == old(currentContent) && welcomeVisible == old(welcomeVisible)
    {
      mounted := Some(Mount(ContainerClass(language), content, language != "pdf"));
    }

    /** `showWelcomeScreen`: the surface shows only the welcome screen; the cached content stays. */
    method ShowWelcomeScreen()
      modifies this
      ensures welcomeVisible && mounted == None
      ensures currentContent == old(currentContent)
    {
      mounted := None;
      welcomeVisible := true;
    }

    /**
     * `search`: one hit per line of the cached content that contains the
     * query case-insensitively, in line order; nothing when no content has
     * been rendered.
     */
    method Search(query: string) returns (hits: seq<Hit>)
      ensures currentContent.None? ==> hits == []
      ensures currentContent.Some? ==>
                var lines := Split(currentContent.value.content, '\n');
                hits == SearchLines(lines, query, |lines|)
    {
      hits := [];
      if currentContent.None? {
        return;
      }
      var lines := Split(currentContent.value.content, '\n');
      var q := Lower(query);
      var i := 0;
      while i < |lines|
        invariant 0 <= i <= |lines|
        invariant hits == SearchLines(lines, query, i)
      {
        var line := lines[i];
        if Contains(Lower(line), q) {
          var text := Trim(line);
          hits := hits + [Hit(i + 1, text, Take(text, 100))];
        }
        i := i + 1;
      }
    }
  }

  /** The worked example: searching `alpha\nBeta\ngamma` for `b` finds line 2 only. */
  method SearchExample() returns (hits: seq<Hit>)
    ensures hits == [Hit(2, "Beta", "Beta")]
  {
    var cm := new ContentManager(Store(Some("alpha\nBeta\ngamma"), None, None, None, None));
    AboutResolves();
    cm.LoadContent("about", "markdown", None);
    hits := cm.Search("b");
    ExampleLines();
    ExampleHits();
  }

  lemma AboutResolves()
    ensures BaseId("about") == "about"
  {
    assert '/' !in "about";
  }

  lemma ExampleLines()
    ensures Split("alpha\nBeta\ngamma", '\n') == ["alpha", "Beta", "gamma"]
  {
    var pieces := ["alpha", "Beta", "gamma"];
    assert Join(pieces, '\n') == "alpha\nBeta\ngamma";
    SplitOfJoin(pieces, '\n');
  }

  /** A line none of whose characters lowercases to `c` does not match the one-letter query `c`. */
  lemma NoMatchWithout(line: string, c: char)
    requires 'a' <= c <= 'z'
    requires forall k :: 0 <= k < |line| ==> LowerChar(line[k]) != c
    ensures !LineMatches(line, [c])
  {
    assert Lower([c]) == [c];
    forall i | 0 <= i <= |line| - 1 ensures !OccursAt(Lower(line), [c], i) {
      assert Lower(line)[i] != c;
    }
  }

  lemma ExampleHits()
    ensures SearchLines(["alpha", "Beta", "gamma"], "b", 3) == [Hit(2, "Beta", "Beta")]
  {
    var lines := ["alpha", "Beta", "gamma"];
    NoMatchWithout("alpha", 'b');
    NoMatchWithout("gamma", 'b');
    assert LineMatches("Beta", "b") by {
      assert Lower("b") == "b";
      assert Lower("Beta")[0] == 'b';
      assert OccursAt(Lower("Beta"), "b", 0);
    }
    assert SkipSpaces("Beta", 0) == 0;
    assert SkipSpacesBack("Beta", 0, 4) == 4;
    assert Trim("Beta") == "Beta";
    assert SearchLines(lines, "b", 1) == [];
    assert SearchLines(lines, "b", 2) == [HitAt(lines, 2)];
  }
}
