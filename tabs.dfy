/**
 * The tab manager (js/tabManager.js): an ordered list of tab records, the
 * active tab id, and the tab elements of the tab bar.
 *
 * The registry itself is a value (`Registry`) with one transition function
 * per operation; the `TabManager` class performs those transitions on its
 * fields and drives the content manager, the file explorer and the status
 * bar, which it receives at construction instead of reaching them through
 * `window`. The 200 ms deferred body of `closeTab` runs as one atomic step.
 */
module Tabs {
  import opened Wrappers
  import opened Sequences
  import opened Records
  import opened Content
  import opened Explorer

  /* ---------------------------------------------------------------- */
  /* Language lookups                                                  */
  /* ---------------------------------------------------------------- */

  const Icons: map<string, string> := map[
    "go" := "codicon-file-code", "python" := "codicon-file-code", "rust" := "codicon-file-code",
    "c" := "codicon-file-code", "pdf" := "codicon-file-pdf", "markdown" := "codicon-markdown",
    "json" := "codicon-json", "html" := "codicon-file-code", "css" := "codicon-file-code"]

  const IconColors: map<string, string> := map[
    "go" := "file-icon-go", "python" := "file-icon-python", "rust" := "file-icon-rust",
    "c" := "file-icon-c", "markdown" := "file-icon-md", "json" := "file-icon-json",
    "html" := "file-icon-html", "css" := "file-icon-css"]

  const LanguageNames: map<string, string> := map[
    "go" := "Go", "python" := "Python", "rust" := "Rust", "c" := "C", "pdf" := "PDF",
    "markdown" := "Markdown", "json" := "JSON", "html" := "HTML", "css" := "CSS"]

  /** `getIconForLanguage`: total, with `codicon-file` exactly for the languages the table lacks. */
  function IconForLanguage(language: string): (r: string)
    ensures language in Icons ==> r == Icons[language]
    ensures r == "codicon-file" <==> language !in Icons
  {
    if language in Icons then Icons[language] else "codicon-file"
  }

  /** `getIconColorForLanguage`: total, with no colour class exactly for the languages the table lacks. */
  function IconColorForLanguage(language: string): (r: string)
    ensures language in IconColors ==> r == IconColors[language]
    ensures r == "" <==> language !in IconColors
  {
    if language in IconColors then IconColors[language] else ""
  }

  /** The status-bar language name: the table's display name, or the raw language. */
  function LanguageName(language: string): (r: string)
    ensures language in LanguageNames ==> r == LanguageNames[language] && r != ""
    ensures language !in LanguageNames ==> r == language
  {
    if language in LanguageNames then LanguageNames[language] else language
  }

  /** The icon, colour and status-bar name of every language the explorer's tree uses. */
  lemma TreeLanguagesKnown()
    ensures IconForLanguage("go") == "codicon-file-code" && IconColorForLanguage("go") == "file-icon-go"
    ensures LanguageName("go") == "Go"
    ensures IconForLanguage("rust") == "codicon-file-code" && IconColorForLanguage("rust") == "file-icon-rust"
    ensures LanguageName("rust") == "Rust"
    ensures IconForLanguage("markdown") == "codicon-markdown" && IconColorForLanguage("markdown") == "file-icon-md"
    ensures LanguageName("markdown") == "Markdown"
    ensures IconForLanguage("pdf") == "codicon-file-pdf" && IconColorForLanguage("pdf") == ""
    ensures LanguageName("pdf") == "PDF"
  {
  }

  /* ---------------------------------------------------------------- */
  /* The registry as a value                                           */
  /* ---------------------------------------------------------------- */

  /** The tab list and the active id (`null` is `None`). */
  datatype Registry = Registry(tabs: seq<Tab>, active: Option<string>)

  predicate Registered(tabs: seq<Tab>, id: string)
  {
    exists i :: 0 <= i < |tabs| && tabs[i].id == id
  }

  predicate DistinctIds(tabs: seq<Tab>)
  {
    forall i, j :: 0 <= i < j < |tabs| ==> tabs[i].id != tabs[j].id
  }

  /** `tabs.find(tab => tab.id === id)`, as the index of the first match. */
  function Find(tabs: seq<Tab>, id: string): Option<nat>
  {
    FirstIndex(tabs, (t: Tab) => t.id == id, 0)
  }

  /** The first tab with id `id`, if any. */
  function Lookup(tabs: seq<Tab>, id: string): (r: Option<Tab>)
    ensures r.Some? <==> Registered(tabs, id)
    ensures r.Some? ==> r.value in tabs && r.value.id == id
  {
    var k := Find(tabs, id);
    if k.Some? then Some(tabs[k.value]) else None
  }

  /** With distinct ids, a registered tab is the one the lookup finds. */
  lemma LookupDistinct(tabs: seq<Tab>, k: nat)
    requires DistinctIds(tabs) && k < |tabs|
    ensures Lookup(tabs, tabs[k].id) == Some(tabs[k])
  {
    var f := Find(tabs, tabs[k].id);
    assert f.Some?;
    assert f.value == k;
  }

  /** `tabs.filter(tab => tab.id !== id)`: the others, in their original order. */
  function WithoutId(tabs: seq<Tab>, id: string): (r: seq<Tab>)
    ensures !Registered(r, id)
    ensures IsSubsequence(r, tabs)
    ensures forall t :: t in tabs && t.id != id ==> t in r
    ensures forall t :: t in r ==> t in tabs
    ensures |r| <= |tabs|
  {
    if tabs == [] then []
    else
      var rest := WithoutId(tabs[1..], id);
      assert forall t :: t in tabs ==> t == tabs[0] || t in tabs[1..];
      if tabs[0].id == id then
        PrependBoth(tabs[0], rest, tabs[1..]);
        assert [tabs[0]] + tabs[1..] == tabs;
        rest
      else
        PrependBoth(tabs[0], rest, tabs[1..]);
        assert [tabs[0]] + tabs[1..] == tabs;
        assert forall t :: t in [tabs[0]] + rest ==> t == tabs[0] || t in rest;
        [tabs[0]] + rest
  }

  /** The filter keeps every tab without the id as often as it occurs, and no tab with it. */
  lemma {:induction false} WithoutIdCounts(tabs: seq<Tab>, id: string)
    ensures forall t :: multiset(WithoutId(tabs, id))[t] == if t.id == id then 0 else multiset(tabs)[t]
  {
    if tabs != [] {
      WithoutIdCounts(tabs[1..], id);
      assert tabs == [tabs[0]] + tabs[1..];
      assert multiset(tabs) == multiset([tabs[0]]) + multiset(tabs[1..]);
    }
  }


  /** Filtering leaves distinct ids distinct. */
  lemma {:induction false} WithoutIdDistinct(tabs: seq<Tab>, id: string)
    requires DistinctIds(tabs)
    ensures DistinctIds(WithoutId(tabs, id))
    decreases tabs
  {
    if tabs != [] {
      var tail := tabs[1..];
      assert DistinctIds(tail) by {
        forall i, j | 0 <= i < j < |tail| ensures tail[i].id != tail[j].id {
          assert tail[i] == tabs[i + 1] && tail[j] == tabs[j + 1];
        }
      }
      WithoutIdDistinct(tail, id);
      var rest := WithoutId(tail, id);
      if tabs[0].id != id {
        forall t | t in rest ensures t.id != tabs[0].id {
          var j :| 0 <= j < |tail| && tail[j] == t;
          assert tabs[j + 1] == t;
        }
        DistinctCons(tabs[0], rest);
      }
    }
  }

  lemma DistinctCons(t: Tab, rest: seq<Tab>)
    requires DistinctIds(rest) && forall u :: u in rest ==> u.id != t.id
    ensures DistinctIds([t] + rest)
  {
    var s := [t] + rest;
    forall i, j | 0 <= i < j < |s| ensures s[i].id != s[j].id {
      assert s[j] == rest[j - 1] && s[j] in rest;
      if i > 0 {
        assert s[i] == rest[i - 1];
      }
    }
  }

  /** `switchTab(id)`: the id becomes active whether or not it is registered. */
  function Switch(r: Registry, id: string): (s: Registry)
    ensures s.tabs == r.tabs && s.active == Some(id)
    ensures ActiveTab(s) == Lookup(r.tabs, id)
  {
    Registry(r.tabs, Some(id))
  }

  /** `openTab(t)`: switch to an existing id, or append `t` and switch to it. */
  function Open(r: Registry, t: Tab): (s: Registry)
    ensures s.active == Some(t.id) && Registered(s.tabs, t.id)
  {
    if Registered(r.tabs, t.id) then Switch(r, t.id)
    else
      assert (r.tabs + [t])[|r.tabs|].id == t.id;
      Switch(Registry(r.tabs + [t], r.active), t.id)
  }

  /**
   * The deferred body of `closeTab(id)` (nothing happens when no tab has the
   * id): the tabs with the id go; if it was active, the tab now last becomes
   * active, or none when the list is empty.
   */
  function Close(r: Registry, id: string): (s: Registry)
    ensures !Registered(s.tabs, id) && IsSubsequence(s.tabs, r.tabs)
    ensures !Registered(r.tabs, id) ==> s == r
    ensures Registered(r.tabs, id) ==> s.active != Some(id)
    ensures r.active != Some(id) ==> s.active == r.active
  {
    if !Registered(r.tabs, id) then SubsequenceReflexive(r.tabs); r
    else
      var rest := WithoutId(r.tabs, id);
      if r.active == Some(id) then
        if |rest| > 0 then Switch(Registry(rest, r.active), rest[|rest| - 1].id) else Registry(rest, None)
      else Registry(rest, r.active)
  }

  /** `closeAllTabs`. */
  function CloseAll(r: Registry): (s: Registry)
    ensures s.tabs == [] && s.active.None?
  {
    Registry([], None)
  }

  /** `getActiveTab`: the first tab whose id is the active id, if any. */
  function ActiveTab(r: Registry): (t: Option<Tab>)
    ensures t.Some? ==> t.value in r.tabs && r.active == Some(t.value.id)
    ensures t.None? ==> r.active.None? || !Registered(r.tabs, r.active.value)
  {
    if r.active.Some? then Lookup(r.tabs, r.active.value) else None
  }

  /** Unique ids, and an active id that is null or registered. */
  predicate WellFormed(r: Registry)
  {
    DistinctIds(r.tabs) && (r.active.None? || Registered(r.tabs, r.active.value))
  }

  /** Opening an id already open changes no tab and no position; the id becomes active. */
  lemma OpenExisting(r: Registry, t: Tab)
    requires Registered(r.tabs, t.id)
    ensures Open(r, t).tabs == r.tabs
    ensures Open(r, t).active == Some(t.id)
  {
  }

  /** Opening a new id appends exactly that tab, makes it active, and keeps the ids distinct. */
  lemma OpenNew(r: Registry, t: Tab)
    requires !Registered(r.tabs, t.id)
    ensures Open(r, t).tabs == r.tabs + [t]
    ensures Open(r, t).active == Some(t.id)
    ensures DistinctIds(r.tabs) ==> DistinctIds(Open(r, t).tabs)
  {
    var s := r.tabs + [t];
    if DistinctIds(r.tabs) {
      forall i, j | 0 <= i < j < |s| ensures s[i].id != s[j].id {
        if j == |s| - 1 {
          assert s[i] == r.tabs[i];
        } else {
          assert s[i] == r.tabs[i] && s[j] == r.tabs[j];
        }
      }
    }
  }

  /** Opening the same tab twice is opening it once: never two tabs with one id. */
  lemma OpenIdempotent(r: Registry, t: Tab)
    ensures Open(Open(r, t), t) == Open(r, t)
  {
  }

  /** Opening keeps the registry well formed. */
  lemma OpenWellFormed(r: Registry, t: Tab)
    requires WellFormed(r)
    ensures WellFormed(Open(r, t))
  {
    if !Registered(r.tabs, t.id) {
      OpenNew(r, t);
    }
  }

  /** Closing removes every tab with the id and keeps the others in order. */
  lemma CloseRemoves(r: Registry, id: string)
    requires Registered(r.tabs, id)
    ensures !Registered(Close(r, id).tabs, id)
    ensures IsSubsequence(Close(r, id).tabs, r.tabs)
    ensures forall t :: t in r.tabs && t.id != id ==> t in Close(r, id).tabs
  {
  }

  /** Closing a tab that is not active leaves the active id alone. */
  lemma CloseInactiveKeepsActive(r: Registry, id: string)
    requires r.active != Some(id)
    ensures Close(r, id).active == r.active
  {
  }

  /**
   * Closing the active tab activates the tab now last in the list, or none
   * when no tab is left.
   */
  lemma CloseActive(r: Registry, id: string)
    requires Registered(r.tabs, id) && r.active == Some(id)
    ensures var s := Close(r, id);
            s.tabs == WithoutId(r.tabs, id)
            && (s.tabs != [] ==> s.active == Some(s.tabs[|s.tabs| - 1].id))
            && (s.tabs == [] ==> s.active.None?)
  {
  }

  /** Closing keeps the registry well formed. */
  lemma CloseWellFormed(r: Registry, id: string)
    requires WellFormed(r)
    ensures WellFormed(Close(r, id))
  {
    if Registered(r.tabs, id) {
      var rest := WithoutId(r.tabs, id);
      WithoutIdDistinct(r.tabs, id);
      if r.active != Some(id) && r.active.Some? {
        var k :| 0 <= k < |r.tabs| && r.tabs[k].id == r.active.value;
        assert r.tabs[k] in r.tabs;
        var j :| 0 <= j < |rest| && rest[j] == r.tabs[k];
      } else if |rest| > 0 {
        assert rest[|rest| - 1].id == rest[|rest| - 1].id;
      }
    }
  }

  /** Closing the only tab, when it is active, leaves no tab and no active id. */
  lemma CloseOnlyTab(t: Tab)
    ensures Close(Registry([t], Some(t.id)), t.id) == Registry([], None)
  {
    assert Registered([t], t.id) by { assert [t][0].id == t.id; }
    assert WithoutId([t], t.id) == [];
  }

  /** The open-open-close-close scenario of the editor shell. */
  lemma Scenario(about: Tab, contact: Tab)
    requires about.id == "about" && contact.id == "contact"
    ensures var r1 := Open(Registry([], None), about);
            var r2 := Open(r1, contact);
            var r3 := Close(r2, "about");
            var r4 := Close(r3, "contact");
            && r1.active == Some("about")
            && r2 == Registry([about, contact], Some("contact"))
            && r3 == Registry([contact], Some("contact"))
            && r4 == Registry([], None)
  {
    var r0 := Registry([], None);
    assert !Registered(r0.tabs, "about");
    OpenNew(r0, about);
    var r1 := Open(r0, about);
    assert r1.tabs == [about];
    assert !Registered(r1.tabs, "contact") by {
      assert forall i :: 0 <= i < |r1.tabs| ==> r1.tabs[i] == about;
    }
    OpenNew(r1, contact);
    var r2 := Open(r1, contact);
    assert r2.tabs == [about, contact];
    assert Registered(r2.tabs, "about") by { assert r2.tabs[0].id == "about"; }
    var w := WithoutId(r2.tabs, "about");
    assert r2.tabs[1..] == [contact] && r2.tabs[1..][1..] == [];
    assert WithoutId([contact], "about") == [contact];
    assert w == [contact];
    CloseOnlyTab(contact);
  }

  /* ---------------------------------------------------------------- */
  /* The tab bar                                                       */
  /* ---------------------------------------------------------------- */

  /** A tab element: its id, the icon and colour classes, its label and the `active` class. */
  datatype TabElement = TabElement(tabId: string, icon: string, iconColor: string, title: string, active: bool)

  /** The element `createTab` builds for `t`. */
  function ElementFor(t: Tab, active: bool): TabElement
  {
    TabElement(t.id, IconForLanguage(t.language), IconColorForLanguage(t.language), t.title, active)
  }

  /** The tab bar for a registry: one element per tab, marked active exactly when its id is the active one. */
  function ElementsFor(tabs: seq<Tab>, active: Option<string>): (r: seq<TabElement>)
    ensures |r| == |tabs|
    ensures forall i :: 0 <= i < |r| ==> r[i] == ElementFor(tabs[i], active == Some(tabs[i].id))
  {
    if tabs == [] then [] else [ElementFor(tabs[0], active == Some(tabs[0].id))] + ElementsFor(tabs[1..], active)
  }

  /** One element per tab, whatever the `active` classes say. */
  predicate Shaped(elements: seq<TabElement>, tabs: seq<Tab>)
  {
    |elements| == |tabs| && forall i :: 0 <= i < |elements| ==> elements[i] == ElementFor(tabs[i], elements[i].active)
  }

  /** Removing the elements of the closed id. */
  function DropElements(elements: seq<TabElement>, id: string): seq<TabElement>
  {
    if elements == [] then []
    else (if elements[0].tabId == id then [] else [elements[0]]) + DropElements(elements[1..], id)
  }

  /** Removing the closed tab's elements leaves the tab bar of the filtered list. */
  lemma {:induction false} DropElementsFor(tabs: seq<Tab>, active: Option<string>, id: string)
    ensures DropElements(ElementsFor(tabs, active), id) == ElementsFor(WithoutId(tabs, id), active)
    decreases tabs
  {
    if tabs != [] {
      var e := ElementsFor(tabs, active);
      assert e[1..] == ElementsFor(tabs[1..], active);
      DropElementsFor(tabs[1..], active, id);
    }
  }

  /* ---------------------------------------------------------------- */
  /* The tab manager object                                            */
  /* ---------------------------------------------------------------- */

  class TabManager {
    var tabs: seq<Tab>
    var activeTabId: Option<string>
    var elements: seq<TabElement>
    var statusLanguage: Option<string>
    var statusEncoding: Option<string>
    const content: ContentManager
    const explorer: FileExplorer

    function State(): Registry
      reads this
    {
      Registry(tabs, activeTabId)
    }

    /** Unique ids, and a tab bar that mirrors the list and the active id; the explorer is consistent. */
    ghost predicate Valid()
      reads this, explorer
    {
      && DistinctIds(tabs)
      && elements == ElementsFor(tabs, activeTabId)
      && explorer.Valid()
    }

    /**
     * What a switch to the registered id `id` leaves in the collaborators:
     * its content displayed with it as the active tab, the status bar
     * naming its language, and its file highlighted in the explorer.
     */
    ghost predicate Activated(id: string)
      reads this, content, explorer
    {
      match Lookup(tabs, id)
      case None => false
      case Some(t) =>
        && content.Displays(t.contentId, t.language, Some(t))
        && statusLanguage == Some(LanguageName(t.language))
        && statusEncoding == Some("UTF-8")
        && explorer.Highlighted(t.contentId, t.title)
    }

    constructor(content: ContentManager, explorer: FileExplorer)
      requires explorer.Valid()
      ensures this.content == content && this.explorer == explorer
      ensures tabs == [] && activeTabId == None && elements == []
      ensures statusLanguage == None && statusEncoding == None
      ensures Valid()
    {
      tabs := [];
      activeTabId := None;
      elements := [];
      statusLanguage := None;
      statusEncoding := None;
      this.content := content;
      this.explorer := explorer;
    }

    /** `getActiveTab`. */
    function GetActiveTab(): (t: Option<Tab>)
      reads this
      ensures t == ActiveTab(State())
      ensures t.Some? ==> t.value in tabs && activeTabId == Some(t.value.id)
    {
      ActiveTab(State())
    }

    /** `updateStatusBar`. */
    method UpdateStatusBar(t: Tab)
      modifies this
      ensures statusLanguage == Some(LanguageName(t.language)) && statusEncoding == Some("UTF-8")
      ensures tabs == old(tabs) && activeTabId == old(activeTabId) && elements == old(elements)
    {
      statusLanguage := Some(LanguageName(t.language));
      statusEncoding := Some("UTF-8");
    }

    /**
     * `switchTab(id)`: the id becomes active and only its elements carry the
     * `active` class; when it is registered, its content is loaded, the
     * status bar updated and its file highlighted, otherwise nothing else
     * changes.
     */
    method SwitchTab(id: string)
      requires Shaped(elements, tabs) && explorer.Valid()
      modifies this, content, explorer
      ensures State() == Switch(old(State()), id)
      ensures elements == ElementsFor(tabs, Some(id))
      ensures explorer.Valid() && explorer.views == old(explorer.views)
      ensures Registered(tabs, id) ==> Activated(id)
      ensures !Registered(tabs, id) ==>
                unchanged(content) && unchanged(explorer)
                && statusLanguage == old(statusLanguage) && statusEncoding == old(statusEncoding)
    {
      activeTabId := Some(id);
      MarkActive(id);
      var found := Lookup(tabs, id);
      if found.Some? {
        var t := found.value;
        content.LoadContent(t.contentId, t.language, GetActiveTab());
        UpdateStatusBar(t);
        explorer.HighlightFileByContentId(t.contentId, t.title);
      }
    }

    /** The loop of `switchTab` over the tab elements: exactly those of `id` get the `active` class. */
    method MarkActive(id: string)
      requires Shaped(elements, tabs)
      modifies this
      ensures elements == ElementsFor(tabs, Some(id))
      ensures tabs == old(tabs) && activeTabId == old(activeTabId)
      ensures statusLanguage == old(statusLanguage) && statusEncoding == old(statusEncoding)
    {
      var i := 0;
      while i < |elements|
        invariant 0 <= i <= |elements| == |tabs|
        invariant tabs == old(tabs) && activeTabId == old(activeTabId)
        invariant statusLanguage == old(statusLanguage) && statusEncoding == old(statusEncoding)
        invariant forall j :: 0 <= j < i ==> elements[j] == ElementFor(tabs[j], Some(id) == Some(tabs[j].id))
        invariant forall j :: i <= j < |elements| ==> elements[j] == ElementFor(tabs[j], elements[j].active)
      {
        elements := elements[i := elements[i].(active := elements[i].tabId == id)];
        i := i + 1;
      }
    }

    /** `createTab(t)`: append the tab and its element, then switch to it. */
    method CreateTab(t: Tab)
      requires Valid() && !Registered(tabs, t.id)
      modifies this, content, explorer
      ensures State() == Open(old(State()), t)
      ensures Valid() && explorer.views == old(explorer.views)
      ensures Activated(t.id)
    {
      OpenNew(State(), t);
      tabs := tabs + [t];
      elements := elements + [ElementFor(t, false)];
      SwitchTab(t.id);
    }

    /** `openTab(t)`: switch to the tab already open under `t.id`, or create one. */
    method OpenTab(t: Tab)
      requires Valid()
      modifies this, content, explorer
      ensures State() == Open(old(State()), t)
      ensures Valid() && explorer.views == old(explorer.views)
      ensures Activated(t.id)
    {
      if Lookup(tabs, t.id).Some? {
        SwitchTab(t.id);
      } else {
        CreateTab(t);
      }
    }

    /**
     * `closeTab(id)` with its deferred body run at once. If the closed tab was
     * active, the tab now last is switched to, or, with no tab left, the
     * welcome screen shows and the explorer selection is cleared.
     */
    method CloseTab(id: string)
      requires Valid()
      modifies this, content, explorer
      ensures State() == Close(old(State()), id)
      ensures Valid() && explorer.views == old(explorer.views)
      ensures old(Registered(tabs, id) && activeTabId == Some(id)) && tabs != [] ==> Activated(tabs[|tabs| - 1].id)
      ensures old(Registered(tabs, id) && activeTabId == Some(id)) && tabs == [] ==>
                && content.welcomeVisible && content.mounted.None? && content.currentContent == old(content.currentContent)
                && explorer.marked == {} && explorer.activeFile.None?
      ensures !(old(Registered(tabs, id) && activeTabId == Some(id)) && tabs != []) ==>
                statusLanguage == old(statusLanguage) && statusEncoding == old(statusEncoding)
      ensures !old(Registered(tabs, id) && activeTabId == Some(id)) ==> unchanged(content) && unchanged(explorer)
    {
      if Lookup(tabs, id).None? {
        return;
      }
      RemoveTab(id);
      if activeTabId == Some(id) {
        if |tabs| > 0 {
          var last := tabs[|tabs| - 1];
          SwitchTab(last.id);
        } else {
          activeTabId := None;
          content.ShowWelcomeScreen();
          explorer.ClearSelection();
        }
      }
    }

    /** The removal in the deferred body of `closeTab`: the element and every tab with the id go. */
    method RemoveTab(id: string)
      requires Valid()
      modifies this
      ensures tabs == WithoutId(old(tabs), id) && activeTabId == old(activeTabId)
      ensures statusLanguage == old(statusLanguage) && statusEncoding == old(statusEncoding)
      ensures Valid()
    {
      DropElementsFor(tabs, activeTabId, id);
      WithoutIdDistinct(tabs, id);
      elements := DropElements(elements, id);
      tabs := WithoutId(tabs, id);
    }

    /** `closeAllTabs`: no tabs, no active id, an empty tab bar and the welcome screen. */
    method CloseAllTabs()
      requires Valid()
      modifies this, content
      ensures State() == CloseAll(old(State()))
      ensures elements == []
      ensures content.welcomeVisible && content.mounted.None? && content.currentContent == old(content.currentContent)
      ensures statusLanguage == old(statusLanguage) && statusEncoding == old(statusEncoding)
      ensures Valid()
    {
      tabs := [];
      activeTabId := None;
      elements := [];
      content.ShowWelcomeScreen();
    }
  }
}
