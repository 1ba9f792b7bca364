/**
 * The application shell (js/main.js): the keyboard shortcuts, the command
 * palette over the explorer's file list, the sidebar toggle and the
 * contact form, wired to the components it constructs.
 *
 * The components are created once and handed to one another instead of
 * being published on `window`. The palette's deferred steps (the frame that
 * adds `active`, the 260 ms hide) run at once, and the focus handling and
 * the alerts are not modelled; which alert the form shows is returned.
 */
module App {
  import opened Wrappers
  import opened Strings
  import opened Sequences
  import opened Records
  import opened Content
  import opened Explorer
  import opened Tabs
  import Theme

  /* ---------------------------------------------------------------- */
  /* Keyboard shortcuts                                                */
  /* ---------------------------------------------------------------- */

  datatype Action = PaletteToggle | SidebarToggle | PaletteClose

  /** `(e.key || '').toLowerCase()`. */
  function KeyName(key: Option<string>): (r: string)
    ensures key.None? ==> r == ""
    ensures key.Some? ==> |r| == |key.value|
    ensures forall i :: 0 <= i < |r| ==> !('A' <= r[i] <= 'Z')
  {
    Lower(OrElse(key, ""))
  }

  /** The actions the document's keydown handler takes, in the order of its three tests. */
  function KeyActions(key: Option<string>, ctrl: bool, meta: bool): (r: seq<Action>)
    ensures |r| <= 1
    ensures PaletteToggle in r <==> (ctrl || meta) && KeyName(key) == "p"
    ensures SidebarToggle in r <==> (ctrl || meta) && KeyName(key) == "b"
    ensures PaletteClose in r <==> KeyName(key) == "escape"
  {
    var k := KeyName(key);
    var cmdOrCtrl := ctrl || meta;
    assert key == Some("Escape") ==> k == "escape" by {
      if key == Some("Escape") {
        assert OrElse(key, "") == "Escape";
        assert forall i :: 0 <= i < |k| ==> k[i] == LowerChar("Escape"[i]);
      }
    }
    (if cmdOrCtrl && k == "p" then [PaletteToggle] else [])
    + (if cmdOrCtrl && k == "b" then [SidebarToggle] else [])
    + (if k == "escape" || key == Some("Escape") then [PaletteClose] else [])
  }

  /** A one-letter key name lowercases to `c` exactly for `c` and its capital. */
  lemma LetterKey(key: Option<string>, c: char)
    requires 'a' <= c <= 'z'
    ensures KeyName(key) == [c] <==> key == Some([c]) || key == Some([(c as int - 32) as char])
  {
    var s := OrElse(key, "");
    if KeyName(key) == [c] {
      assert |s| == 1;
      assert Lower(s)[0] == LowerChar(s[0]);
      assert s == [s[0]];
    }
    if key == Some([(c as int - 32) as char]) {
      assert LowerChar((c as int - 32) as char) == c;
      assert KeyName(key)[0] == c;
    }
    if key == Some([c]) {
      assert KeyName(key)[0] == c;
    }
  }

  /** Exactly Ctrl or Cmd with `p` or `P` toggles the palette, and does nothing else. */
  lemma PaletteShortcut(key: Option<string>, ctrl: bool, meta: bool)
    ensures KeyActions(key, ctrl, meta) == [PaletteToggle] <==> (ctrl || meta) && (key == Some("p") || key == Some("P"))
  {
    LetterKey(key, 'p');
    var r := KeyActions(key, ctrl, meta);
    if |r| == 1 {
      assert r[0] in r;
    }
  }

  /** Exactly Ctrl or Cmd with `b` or `B` toggles the sidebar, and does nothing else. */
  lemma SidebarShortcut(key: Option<string>, ctrl: bool, meta: bool)
    ensures KeyActions(key, ctrl, meta) == [SidebarToggle] <==> (ctrl || meta) && (key == Some("b") || key == Some("B"))
  {
    LetterKey(key, 'b');
    var r := KeyActions(key, ctrl, meta);
    if |r| == 1 {
      assert r[0] in r;
    }
  }

  /** Escape, in any capitalisation and with any modifiers, only closes the palette. */
  lemma EscapeCloses(key: Option<string>, ctrl: bool, meta: bool)
    ensures KeyActions(key, ctrl, meta) == [PaletteClose] <==> KeyName(key) == "escape"
  {
    var r := KeyActions(key, ctrl, meta);
    if |r| == 1 {
      assert r[0] in r;
    }
  }

  /* ---------------------------------------------------------------- */
  /* Command palette                                                   */
  /* ---------------------------------------------------------------- */

  /** The entries whose lowercase name contains `query`, in their order. */
  function NameFilter(all: seq<FileEntry>, query: string): (r: seq<FileEntry>)
    ensures IsSubsequence(r, all)
    ensures forall e :: e in r <==> e in all && Contains(Lower(e.name), query)
    ensures forall e :: multiset(r)[e] == if Contains(Lower(e.name), query) then multiset(all)[e] else 0
  {
    if all == [] then []
    else
      var rest := NameFilter(all[1..], query);
      assert multiset(all) == multiset([all[0]]) + multiset(all[1..]) by {
        assert all == [all[0]] + all[1..];
      }
      assert all == [all[0]] + all[1..];
      assert forall e :: e in all <==> e == all[0] || e in all[1..];
      PrependBoth(all[0], rest, all[1..]);
      if Contains(Lower(all[0].name), query) then [all[0]] + rest else rest
  }

  /**
   * `filterFiles(query)`: nothing for an empty query; otherwise the entries
   * whose lowercase name contains the query (which the callers lowercase).
   */
  function FilterFiles(query: string, all: seq<FileEntry>): (r: seq<FileEntry>)
    ensures query == "" ==> r == []
    ensures query != "" ==> r == NameFilter(all, query)
  {
    if query == "" then [] else NameFilter(all, query)
  }

  /** The palette lists, in file-list order, exactly the files whose name contains the typed text, ignoring case. */
  lemma PaletteMatchIgnoresCase(input: string, all: seq<FileEntry>, e: FileEntry)
    requires input != ""
    ensures IsSubsequence(FilterFiles(Lower(input), all), all)
    ensures e in FilterFiles(Lower(input), all) <==> e in all && LineMatches(e.name, input)
  {
    assert |Lower(input)| == |input|;
  }

  /** One rendered result: the file, its icon classes, the text shown and the `selected` mark. */
  datatype PaletteItem = PaletteItem(file: FileEntry, icon: string, iconColor: string, text: string, selected: bool)

  /** `file.path || file.name`. */
  function DisplayText(e: FileEntry): (r: string)
    ensures e.path != "" ==> r == e.path
    ensures e.path == "" ==> r == e.name
  {
    if e.path != "" then e.path else e.name
  }

  /** The rendered result for `e`. */
  function ResultItem(e: FileEntry, selected: bool): (r: PaletteItem)
    ensures r.file == e && r.text == DisplayText(e) && r.selected == selected
    ensures r.icon == IconForLanguage(e.language) && r.iconColor == IconColorForLanguage(e.language)
  {
    PaletteItem(e, IconForLanguage(e.language), IconColorForLanguage(e.language), DisplayText(e), selected)
  }

  /** The rendered results, one per file in order; `first` says whether the first one is still to come. */
  function RenderResults(files: seq<FileEntry>, first: bool): (r: seq<PaletteItem>)
    ensures |r| == |files|
    ensures forall i :: 0 <= i < |r| ==> r[i] == ResultItem(files[i], first && i == 0)
  {
    if files == [] then []
    else [ResultItem(files[0], first)] + RenderResults(files[1..], false)
  }

  /** The first item marked `selected`, as `querySelector('.palette-item.selected')` finds it. */
  function FirstSelected(items: seq<PaletteItem>): Option<nat>
  {
    FirstIndex(items, (it: PaletteItem) => it.selected, 0)
  }

  /** Exactly the first result is selected, so Enter commits the first result. */
  lemma EnterSelectsFirst(files: seq<FileEntry>)
    ensures var items := RenderResults(files, true);
            FirstSelected(items) == (if files == [] then None else Some(0))
  {
  }

  /** The tab descriptor a palette result opens. */
  function ResultTab(e: FileEntry): (t: Tab)
    ensures t.id == e.contentId && t.contentId == e.contentId && t.title == e.name && t.language == e.language
    ensures t.url == OrNull(e.url)
  {
    Tab(e.contentId, e.name, e.language, e.contentId, OrNull(e.url))
  }

  /* ---------------------------------------------------------------- */
  /* Contact form                                                      */
  /* ---------------------------------------------------------------- */

  /** The four form fields; `None` when the field is not on the page. */
  datatype ContactForm = ContactForm(name: Option<string>, email: Option<string>, subject: Option<string>, message: Option<string>)

  /** Which alert the submission shows. */
  datatype Notice = ThankYou | FillInAllFields

  predicate Filled(f: ContactForm)
  {
    OrNull(f.name).Some? && OrNull(f.email).Some? && OrNull(f.subject).Some? && OrNull(f.message).Some?
  }

  const ClearedForm: ContactForm := ContactForm(Some(""), Some(""), Some(""), Some(""))

  /** `handleContactFormSubmit`: thanks and clears all four fields when all are non-empty; otherwise changes nothing. */
  function Submit(f: ContactForm): (r: (ContactForm, Notice))
    ensures r.1 == ThankYou <==> Filled(f)
    ensures r.1 == ThankYou ==> r.0 == ClearedForm
    ensures r.1 == FillInAllFields ==> r.0 == f
  {
    if Filled(f) then (ClearedForm, ThankYou) else (f, FillInAllFields)
  }

  /** A form just sent is empty, so sending it again only asks for the fields. */
  lemma SubmitTwice(f: ContactForm)
    requires Filled(f)
    ensures Submit(Submit(f).0) == (ClearedForm, FillInAllFields)
  {
  }

  /** One empty or missing field is enough for the form to be refused unchanged. */
  lemma SubmitMissingField(f: ContactForm)
    requires OrNull(f.name).None? || OrNull(f.email).None? || OrNull(f.subject).None? || OrNull(f.message).None?
    ensures Submit(f) == (f, FillInAllFields)
  {
  }

  /* ---------------------------------------------------------------- */
  /* The application                                                   */
  /* ---------------------------------------------------------------- */

  /**
   * `PortfolioApp` after `setup`: the components, the palette's classes,
   * input and rendered results, the sidebar classes and the contact form.
   */
  class Workbench {
    const content: ContentManager
    const explorer: FileExplorer
    const tabs: TabManager
    const theme: Theme.ThemeSwitcher
    var paletteActive: bool
    var paletteHidden: bool
    var paletteInput: string
    var results: seq<PaletteItem>
    var sidebarCollapsed: bool
    var containerCollapsed: bool
    var form: ContactForm

    /** The wiring, the tab manager's invariant, and tabs keyed by their content id. */
    ghost predicate Valid()
      reads this, tabs, explorer
    {
      && tabs.content == content
      && tabs.explorer == explorer
      && tabs.Valid()
      && (forall k :: 0 <= k < |tabs.tabs| ==> tabs.tabs[k].id == tabs.tabs[k].contentId)
    }

    /**
     * The state after the descriptor `d` is opened and loaded again, as the
     * tree click and the palette commit do: the registered tab under `d.id`
     * is active and highlighted, and `d`'s content is displayed with it as
     * the active tab.
     */
    ghost predicate Opened(d: Tab)
      reads this, tabs, content, explorer
    {
      var t := Lookup(tabs.tabs, d.id);
      && t.Some?
      && tabs.activeTabId == Some(d.id)
      && content.Displays(d.contentId, d.language, t)
      && tabs.statusLanguage == Some(LanguageName(t.value.language))
      && tabs.statusEncoding == Some("UTF-8")
      && explorer.Highlighted(t.value.contentId, t.value.title)
    }

    /**
     * `setup`: the components created and wired together, the palette hidden,
     * the sidebar open, and the welcome screen shown.
     */
    static method Setup(store: Store, discovered: seq<(string, string)>, storedTheme: Option<string>,
                        themeOptions: seq<string>, form: ContactForm) returns (w: Workbench)
      ensures fresh(w) && w.Valid()
      ensures w.content.store == store && w.content.currentContent == None
      ensures w.explorer.files == DefaultFiles(discovered) && w.explorer.Rendered()
      ensures w.explorer.views == InitialViews(FoldersOf(w.explorer.files))
      ensures w.explorer.activeFile == None && w.explorer.marked == {}
      ensures w.tabs.tabs == [] && w.tabs.activeTabId == None
      ensures w.tabs.statusLanguage == None && w.tabs.statusEncoding == None
      ensures w.theme.State() == Theme.Initial(storedTheme, themeOptions) && !w.theme.dropdownOpen
      ensures w.content.welcomeVisible && w.content.mounted == None
      ensures w.paletteHidden && !w.paletteActive && w.paletteInput == "" && w.results == []
      ensures !w.sidebarCollapsed && !w.containerCollapsed
      ensures w.form == form
    {
      // `setup` shows the welcome screen last; no other component touches the
      // content area, so showing it first leaves the same state.
      var c := new ContentManager(store);
      c.ShowWelcomeScreen();
      var th := new Theme.ThemeSwitcher(storedTheme, themeOptions);
      var e := NewExplorer(discovered);
      var t := new TabManager(c, e);
      w := new Workbench(c, e, t, th, form);
    }

    /** The application holding the given components, with the palette hidden and the sidebar open. */
    constructor(c: ContentManager, e: FileExplorer, t: TabManager, th: Theme.ThemeSwitcher, form: ContactForm)
      ensures content == c && explorer == e && tabs == t && theme == th
      ensures paletteHidden && !paletteActive && paletteInput == "" && results == []
      ensures !sidebarCollapsed && !containerCollapsed
      ensures this.form == form
    {
      content := c;
      explorer := e;
      tabs := t;
      theme := th;
      paletteActive := false;
      paletteHidden := true;
      paletteInput := "";
      results := [];
      sidebarCollapsed := false;
      containerCollapsed := false;
      this.form := form;
    }

    /** `new FileExplorer()` in `setup`: a consistent explorer with nothing selected. */
    static method NewExplorer(discovered: seq<(string, string)>) returns (e: FileExplorer)
      ensures fresh(e) && e.Valid()
      ensures e.files == DefaultFiles(discovered) && e.Rendered()
      ensures e.views == InitialViews(FoldersOf(e.files))
      ensures e.activeFile == None && e.marked == {}
    {
      e := new FileExplorer(DefaultFiles(discovered));
    }

    /** `filterFiles(query)` rendering into the results container. */
    method FilterInto(query: string)
      modifies this
      ensures results == RenderResults(FilterFiles(query, explorer.AllFiles()), true)
      ensures paletteActive == old(paletteActive) && paletteHidden == old(paletteHidden)
      ensures paletteInput == old(paletteInput) && form == old(form)
      ensures sidebarCollapsed == old(sidebarCollapsed) && containerCollapsed == old(containerCollapsed)
    {
      if query == "" {
        results := [];
        return;
      }
      var filtered := FilterFiles(query, explorer.AllFiles());
      results := RenderResults(filtered, true);
    }

    /** `openCommandPalette`: shown and active, with the results for the current input. */
    method OpenPalette()
      modifies this
      ensures paletteActive && !paletteHidden && paletteInput == old(paletteInput)
      ensures results == RenderResults(FilterFiles(Lower(paletteInput), explorer.AllFiles()), true)
      ensures sidebarCollapsed == old(sidebarCollapsed) && containerCollapsed == old(containerCollapsed)
      ensures form == old(form)
    {
      paletteHidden := false;
      paletteActive := true;
      FilterInto(Lower(paletteInput));
    }

    /** `closeCommandPalette`: inactive, then hidden, and the input cleared; the rendered results stay. */
    method ClosePalette()
      modifies this
      ensures !paletteActive && paletteHidden && paletteInput == ""
      ensures results == old(results)
      ensures sidebarCollapsed == old(sidebarCollapsed) && containerCollapsed == old(containerCollapsed)
      ensures form == old(form)
    {
      paletteActive := false;
      paletteHidden := true;
      paletteInput := "";
    }

    /** `toggleCommandPalette`: close when active, open otherwise. */
    method TogglePalette()
      modifies this
      ensures old(paletteActive) ==> !paletteActive && paletteHidden && paletteInput == "" && results == old(results)
      ensures !old(paletteActive) ==>
                paletteActive && !paletteHidden && paletteInput == old(paletteInput)
                && results == RenderResults(FilterFiles(Lower(paletteInput), explorer.AllFiles()), true)
      ensures sidebarCollapsed == old(sidebarCollapsed) && containerCollapsed == old(containerCollapsed)
      ensures form == old(form)
    {
      if paletteActive {
        ClosePalette();
      } else {
        OpenPalette();
      }
    }

    /** `toggleSidebar`: the sidebar's and the container's collapsed classes flip together. */
    method ToggleSidebar()
      modifies this
      ensures sidebarCollapsed == !old(sidebarCollapsed)
      ensures containerCollapsed == sidebarCollapsed
      ensures paletteActive == old(paletteActive) && paletteHidden == old(paletteHidden)
      ensures paletteInput == old(paletteInput) && results == old(results) && form == old(form)
    {
      if sidebarCollapsed {
        sidebarCollapsed := false;
        containerCollapsed := false;
      } else {
        sidebarCollapsed := true;
        containerCollapsed := true;
      }
    }

    /** The document's keydown handler. */
    method HandleKeyDown(key: Option<string>, ctrl: bool, meta: bool)
      modifies this
      ensures KeyActions(key, ctrl, meta) == [PaletteToggle] ==>
                && sidebarCollapsed == old(sidebarCollapsed) && containerCollapsed == old(containerCollapsed)
                && (old(paletteActive) ==> !paletteActive && paletteHidden && paletteInput == "" && results == old(results))
                && (!old(paletteActive) ==>
                      paletteActive && !paletteHidden && paletteInput == old(paletteInput)
                      && results == RenderResults(FilterFiles(Lower(paletteInput), explorer.AllFiles()), true))
      ensures KeyActions(key, ctrl, meta) == [SidebarToggle] ==>
                && sidebarCollapsed == !old(sidebarCollapsed) && containerCollapsed == sidebarCollapsed
                && paletteActive == old(paletteActive) && paletteHidden == old(paletteHidden)
                && paletteInput == old(paletteInput) && results == old(results)
      ensures KeyActions(key, ctrl, meta) == [PaletteClose] ==>
                && !paletteActive && paletteHidden && paletteInput == "" && results == old(results)
                && sidebarCollapsed == old(sidebarCollapsed) && containerCollapsed == old(containerCollapsed)
      ensures KeyActions(key, ctrl, meta) == [] ==>
                && paletteActive == old(paletteActive) && paletteHidden == old(paletteHidden)
                && paletteInput == old(paletteInput) && results == old(results)
                && sidebarCollapsed == old(sidebarCollapsed) && containerCollapsed == old(containerCollapsed)
      ensures form == old(form)
    {
      var k := KeyName(key);
      var cmdOrCtrl := ctrl || meta;
      ghost var acts := KeyActions(key, ctrl, meta);
      if cmdOrCtrl && k == "p" {
        TogglePalette();
      }
      if cmdOrCtrl && k == "b" {
        ToggleSidebar();
      }
      if k == "escape" || key == Some("Escape") {
        ClosePalette();
      }
    }

    /** An `input` event on the palette: the results for the lowercased text. */
    method PaletteInput(value: string)
      modifies this
      ensures paletteInput == value
      ensures results == RenderResults(FilterFiles(Lower(value), explorer.AllFiles()), true)
      ensures paletteActive == old(paletteActive) && paletteHidden == old(paletteHidden)
      ensures sidebarCollapsed == old(sidebarCollapsed) && containerCollapsed == old(containerCollapsed)
      ensures form == old(form)
    {
      paletteInput := value;
      FilterInto(Lower(value));
    }

    /**
     * A click on result `k`: open its tab, load its content, close the
     * palette. The click also reaches the document, which closes the theme
     * dropdown.
     */
    method CommitResult(k: nat)
      requires Valid() && k < |results|
      modifies this, tabs, content, explorer, theme
      ensures Valid()
      ensures tabs.State() == Open(old(tabs.State()), ResultTab(old(results)[k].file))
      ensures Opened(ResultTab(old(results)[k].file))
      ensures explorer.views == old(explorer.views)
      ensures !paletteActive && paletteHidden && paletteInput == "" && results == old(results)
      ensures sidebarCollapsed == old(sidebarCollapsed) && containerCollapsed == old(containerCollapsed)
      ensures form == old(form)
      ensures !theme.dropdownOpen && theme.State() == old(theme.State())
    {
      var e := results[k].file;
      var d := ResultTab(e);
      OpenAndLoad(d);
      ClosePalette();
      theme.CloseDropdown();
    }

    /** Enter in the palette input: the selected (first) result is committed, if there is one. */
    method PaletteEnter()
      requires Valid()
      modifies this, tabs, content, explorer, theme
      ensures Valid()
      ensures var sel := FirstSelected(old(results));
              sel.Some? ==>
                && tabs.State() == Open(old(tabs.State()), ResultTab(old(results)[sel.value].file))
                && Opened(ResultTab(old(results)[sel.value].file))
                && explorer.views == old(explorer.views)
                && !paletteActive && paletteHidden && paletteInput == "" && results == old(results)
                && sidebarCollapsed == old(sidebarCollapsed) && containerCollapsed == old(containerCollapsed)
                && form == old(form)
                && !theme.dropdownOpen && theme.State() == old(theme.State())
      ensures FirstSelected(old(results)).None? ==>
                unchanged(this) && unchanged(tabs) && unchanged(content) && unchanged(explorer) && unchanged(theme)
    {
      var sel := FirstSelected(results);
      if sel.Some? {
        CommitResult(sel.value);
      }
    }

    /** Open the tab `d` and load its content again (keyed by its content id), as both entry points do. */
    method OpenAndLoad(d: Tab)
      requires Valid() && d.id == d.contentId
      modifies tabs, content, explorer
      ensures Valid()
      ensures tabs.State() == Open(old(tabs.State()), d)
      ensures Opened(d)
      ensures explorer.views == old(explorer.views)
    {
      tabs.OpenTab(d);
      OpenKeepsContentIds(old(tabs.State()), d);
      Reload(d);
    }

    /** The second `loadContent` of `d`, with the tab just opened under `d.id` active. */
    method Reload(d: Tab)
      requires tabs.activeTabId == Some(d.id)
      modifies content
      ensures content.Displays(d.contentId, d.language, Lookup(tabs.tabs, d.id))
    {
      var active := tabs.GetActiveTab();
      assert active == Lookup(tabs.tabs, d.id);
      content.LoadContent(d.contentId, d.language, active);
    }

    /** Opening a descriptor keyed by its content id keeps every tab keyed by its content id. */
    static lemma OpenKeepsContentIds(r: Registry, d: Tab)
      requires forall k :: 0 <= k < |r.tabs| ==> r.tabs[k].id == r.tabs[k].contentId
      requires d.id == d.contentId
      ensures var after := Open(r, d).tabs;
              forall k :: 0 <= k < |after| ==> after[k].id == after[k].contentId
    {
    }

    /**
     * A click on file element `i` of the tree: `selectFile` marks it, opens
     * its tab and loads its content. The switch then highlights the first
     * element with the same content id.
     */
    method ClickFile(i: nat)
      requires Valid() && i < |explorer.items|
      modifies tabs, content, explorer, theme
      ensures !theme.dropdownOpen && theme.State() == old(theme.State())
      ensures Valid()
      ensures var it := explorer.items[i];
              var d := Tab(it.contentId, it.fileName, it.language, it.contentId, OrNull(it.url));
              tabs.State() == Open(old(tabs.State()), d) && Opened(d)
      ensures explorer.activeFile == FirstWithContentId(explorer.items, explorer.items[i].contentId)
      ensures explorer.activeFile.Some? && explorer.activeFile.value <= i
      ensures explorer.views == old(explorer.views)
    {
      var d := explorer.SelectFile(i);
      OpenAndLoad(d);
      var t := Lookup(tabs.tabs, d.id).value;
      assert t.contentId == d.contentId by {
        assert t in tabs.tabs;
      }
      HighlightPrefersContentId(explorer.items, d.contentId, t.title, i);
      theme.CloseDropdown();
    }

    /** A click on folder element `k` of the tree. */
    method ClickFolder(k: nat)
      requires Valid() && k < |explorer.views|
      modifies explorer, theme
      ensures Valid()
      ensures explorer.views == old(explorer.views)[k := Toggle(old(explorer.views)[k])]
      ensures explorer.marked == old(explorer.marked) && explorer.activeFile == old(explorer.activeFile)
      ensures !theme.dropdownOpen && theme.State() == old(theme.State())
    {
      explorer.ToggleFolder(k);
      theme.CloseDropdown();
    }

    /**
     * A click on tab element `k`: switch to its tab. The click reaches the
     * document, which closes the theme dropdown.
     */
    method ClickTab(k: nat)
      requires Valid() && k < |tabs.elements|
      modifies tabs, content, explorer, theme
      ensures Valid()
      ensures tabs.State() == Switch(old(tabs.State()), old(tabs.tabs[k].id))
      ensures tabs.Activated(old(tabs.tabs[k].id))
      ensures explorer.views == old(explorer.views)
      ensures !theme.dropdownOpen && theme.State() == old(theme.State())
    {
      var id := tabs.elements[k].tabId;
      assert id == tabs.tabs[k].id;
      tabs.SwitchTab(id);
      theme.CloseDropdown();
    }

    /** A click on the close button of tab element `k`; its handler stops the click there. */
    method ClickTabClose(k: nat)
      requires Valid() && k < |tabs.elements|
      modifies tabs, content, explorer
      ensures Valid()
      ensures tabs.State() == Close(old(tabs.State()), old(tabs.tabs[k].id))
      ensures explorer.views == old(explorer.views)
      ensures var id := old(tabs.tabs[k].id);
              old(tabs.activeTabId) == Some(id) && tabs.tabs != [] ==> tabs.Activated(tabs.tabs[|tabs.tabs| - 1].id)
      ensures var id := old(tabs.tabs[k].id);
              old(tabs.activeTabId) == Some(id) && tabs.tabs == [] ==>
                && content.welcomeVisible && content.mounted.None? && content.currentContent == old(content.currentContent)
                && explorer.marked == {} && explorer.activeFile.None?
      ensures var id := old(tabs.tabs[k].id);
              !(old(tabs.activeTabId) == Some(id) && tabs.tabs != []) ==>
                tabs.statusLanguage == old(tabs.statusLanguage) && tabs.statusEncoding == old(tabs.statusEncoding)
      ensures old(tabs.activeTabId) != Some(old(tabs.tabs[k].id)) ==> unchanged(content) && unchanged(explorer)
    {
      var id := tabs.elements[k].tabId;
      tabs.CloseTab(id);
      CloseKeepsContentIds(old(tabs.State()), id);
    }

    /** Closing keeps every remaining tab keyed by its content id. */
    static lemma CloseKeepsContentIds(r: Registry, id: string)
      requires forall k :: 0 <= k < |r.tabs| ==> r.tabs[k].id == r.tabs[k].contentId
      ensures var after := Close(r, id).tabs;
              forall k :: 0 <= k < |after| ==> after[k].id == after[k].contentId
    {
      var after := Close(r, id).tabs;
      forall k | 0 <= k < |after| ensures after[k].id == after[k].contentId {
        assert after[k] in r.tabs;
      }
    }

    /** A click on the form button: the form is submitted, and the theme dropdown closes. */
    method SubmitContactForm() returns (notice: Notice)
      modifies this, theme
      ensures (form, notice) == Submit(old(form))
      ensures paletteActive == old(paletteActive) && paletteHidden == old(paletteHidden)
      ensures paletteInput == old(paletteInput) && results == old(results)
      ensures sidebarCollapsed == old(sidebarCollapsed) && containerCollapsed == old(containerCollapsed)
      ensures !theme.dropdownOpen && theme.State() == old(theme.State())
    {
      theme.CloseDropdown();
      if OrNull(form.name).Some? && OrNull(form.email).Some? && OrNull(form.subject).Some? && OrNull(form.message).Some? {
        notice := ThankYou;
        form := ClearedForm;
      } else {
        notice := FillInAllFields;
      }
    }
  }
}
