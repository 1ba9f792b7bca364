# A verified model of the portfolio editor shell

The site imitates a code editor. An explorer tree lists files, including PDFs
found at build time. Clicking a file opens a tab in the tab bar and loads the
file's content into the editor surface, where a PDF gets an embedded viewer.
A command palette (Ctrl/Cmd+P) filters the files by name. Ctrl/Cmd+B collapses
the sidebar. A theme dropdown persists the chosen theme, and the contact page's
form checks that all four fields are filled in.

This project models the five components that do this:

- the tab manager (`js/tabManager.js`);
- the file explorer (`js/fileExplorer.js`);
- the content manager (`js/contentManager.js`);
- the theme switcher (`js/themeSwitcher.js`);
- the application shell that wires them together (`js/main.js`).

It states their behaviour as Dafny contracts and proves them.

Layout, one module per source file plus two helper modules:

| file | module | models |
|---|---|---|
| `strings.dfy` | `Strings`, `Sequences` | the JavaScript string operations used (`toLowerCase`, `includes`, `trim`, `substring`, `split`, the sort comparison), the first-match search and subsequences |
| `records.dfy` | `Wrappers`, `Records` | `Option`, JavaScript's `x \|\| fallback` on strings, the tab descriptor |
| `content.dfy` | `Content` | `ContentManager`: content lookup, the PDF viewer, the editor surface, line search |
| `explorer.dfy` | `Explorer` | the file forest, `getAllFiles`, rendering, folder toggling, the documents folder, `FileExplorer` |
| `tabs.dfy` | `Tabs` | the tab registry as a value (`Open`, `Switch`, `Close`), the tab bar, `TabManager` |
| `theme.dfy` | `Theme` | the theme table, `ThemeSwitcher` |
| `app.dfy` | `App` | keyboard shortcuts, the command palette, the sidebar, the contact form, `Workbench` (the `PortfolioApp` object) |

How the model is built:

- **Objects that change state become classes.** `ContentManager`, `FileExplorer`, `TabManager`, `ThemeSwitcher` and `Workbench` keep the source's fields, with `modifies` frames on their methods.
- **What lives in the DOM becomes plain fields.** Examples are the tab elements and their `active` class, the explorer's marked element, the folder views, the mounted markup, and the palette's classes and results.
- **Methods are proved against value-level functions.** For example, `TabManager.OpenTab` ensures `State() == Open(old(State()), t)`. Lemmas about `Open`, `Close` and `Switch` then carry the properties: idempotence, no duplicate ids, what becomes active after a close.
- **Globals are passed in.** The components reach each other through `window.*` globals in the source. Here they hold references passed in at construction. The tab that `getContent` reads for the PDF viewer is passed as a parameter.
- **Deferred work runs at once.** Timers and animation frames (the 50 ms content load, the 200 ms tab removal, the 260 ms palette hide, the palette's activation frame) run as one atomic step.

## Model

| member | source | states |
|---|---|---|
| Strings.Lower | js/contentManager.js:174 | lowercasing keeps the length and maps every character through ASCII lowercasing |
| Strings.LowerIdempotent | js/contentManager.js:174 | lowercasing an already lowercased query changes nothing |
| Strings.Trim | js/contentManager.js:177 | the result is a slice of the line that neither starts nor ends with whitespace, and everything cut away on both sides is whitespace |
| Strings.Take | js/contentManager.js:178 | `substring(0, n)` is the prefix of length `min(n, length)` |
| Strings.Split | js/contentManager.js:172 | a split on one character has at least one piece and no piece holds the separator |
| Strings.JoinOfSplit | js/contentManager.js:172 | joining the pieces of a split by the separator gives the string back |
| Strings.SplitOfJoin | js/contentManager.js:172 | splitting the join of separator-free pieces gives the pieces back |
| Strings.FirstSegment | js/contentManager.js:115 | `split('/')[0]` is a separator-free prefix, followed by the separator if shorter than the string, and the whole string when it has no separator |
| Strings.LastSegment | js/fileExplorer.js:7-8 | the last piece of a split is a separator-free suffix, preceded by the separator if shorter than the string |
| Strings.LessEqTotal | js/fileExplorer.js:18 | the name order compares any two names |
| Strings.LessEqTransitive | js/fileExplorer.js:18 | the name order is transitive |
| Strings.LessEqAntisymmetric | js/fileExplorer.js:18 | two names ordered both ways are equal |
| Sequences.FirstIndex | js/tabManager.js:35 | the first index at or after the start whose element satisfies the test, none before it does, and none when no element does; `tabs.find` by id, the explorer's `Array.from(items).find` by content id or file name, and the palette's `querySelector('.palette-item.selected')` are this search |
| Wrappers.OrNull | js/fileExplorer.js:250 | `x \|\| null` keeps exactly the non-empty strings |
| Wrappers.OrElse | js/themeSwitcher.js:7 | `x \|\| fallback` is the value when non-empty and the fallback otherwise |
| Content.StoreLookup | js/contentManager.js:77-83 | only the five keys of the content map resolve |
| Content.BaseId | js/contentManager.js:115 | the looked-up part of an id is its slash-free prefix up to the first `/` |
| Content.PdfFileName | js/contentManager.js:88 | the viewer names the active tab's label, or `cv.pdf` without an active tab or label |
| Content.PdfUrl | js/contentManager.js:89 | the viewer links the active tab's non-empty url, otherwise `/` + file name |
| Content.PdfViewer | js/contentManager.js:90-111 | the viewer markup is never empty, shows the file name and links the file url |
| Content.GetContent | js/contentManager.js:75-117 | pdf gives the viewer of the active tab; otherwise the non-empty store value under the base id, else the not-found markup; never empty |
| Content.SubpathResolvesLikeBase | js/contentManager.js:114-116 | an id resolves exactly as its base segment does |
| Content.BaseIdOfSubpath | js/contentManager.js:115 | `base/anything` has base `base` when `base` has no slash |
| Content.ProjectsSubpath | js/contentManager.js:114-115 | `projects/web-server.go` resolves as `projects` |
| Content.UnknownIdNotFound | js/contentManager.js:116 | a non-pdf id whose base is not one of the five keys renders the not-found markup |
| Content.ContainerClass | js/contentManager.js:40 | the container has `no-line-numbers` exactly for pdf and `line-numbers` otherwise |
| Content.PreHasLineNumbers | js/contentManager.js:50-59 | a `<pre>` gets line numbers only outside pdf and only with a language code block; never inside a `no-line-numbers` element (a standalone characterisation: the mounted state does not record the `<pre>` classes) |
| Content.HitAt | js/contentManager.js:175-179 | a hit carries its 1-based line number, the trimmed line and a preview that is a prefix of at most 100 characters |
| Content.SearchLines | js/contentManager.js:172-181 | searching `n` lines yields at most `n` hits, with line numbers in 1..n |
| Content.SearchSound | js/contentManager.js:173-180 | every hit reports a line whose lowercase form contains the lowercase query, trimmed and previewed |
| Content.SearchOrdered | js/contentManager.js:173-181 | hit line numbers strictly increase |
| Content.SearchComplete | js/contentManager.js:173-180 | every matching line is reported |
| Content.SearchLinesMeets | js/contentManager.js:165-184 | the search result meets the independent specification: sound, ordered and complete |
| Content.ContentManager.constructor | js/contentManager.js:3-7 | nothing rendered yet, the welcome screen shows |
| Content.ContentManager.LoadContent | js/contentManager.js:9-35 | afterwards the welcome screen is hidden and the resolved markup is the current content and mounted |
| Content.ContentManager.RenderContent | js/contentManager.js:37-73 | the surface holds exactly the new markup in the container for its language; highlighting is requested unless pdf |
| Content.ContentManager.ShowWelcomeScreen | js/contentManager.js:119-125 | only the welcome screen shows; the cached content is kept |
| Content.ContentManager.Search | js/contentManager.js:165-184 | no hits without current content, otherwise the hits of the reference search over its lines (so sound, ordered and complete) |
| Content.SearchExample | js/contentManager.js:165-184 | loading `alpha\nBeta\ngamma` and searching `b` gives exactly line 2, `Beta` |
| Content.ExampleHits | js/contentManager.js:173-180 | the reference search over those three lines finds line 2 only |
| Explorer.FlattenForest | js/fileExplorer.js:262-275 | `extractFiles` gives one entry per file leaf, each path starting with the parent path; `FlattenIsLeaves` characterises it fully |
| Explorer.FlattenNode | js/fileExplorer.js:264-273 | a file gives its own entry and a folder its children's entries under `name/`, one per leaf, each path starting with the parent path |
| Explorer.EntryOf | js/fileExplorer.js:265-271 | an entry keeps the file's name, content id and language, `url \|\| null`, and its path ends with its name |
| Explorer.FlattenIsLeaves | js/fileExplorer.js:260-278 | `getAllFiles` lists exactly the file leaves in pre-order, each with the path of its folders joined by `/` |
| Explorer.NodeFlattenIsLeaves | js/fileExplorer.js:263-274 | one node flattens to its file leaves with their folder paths |
| Explorer.LeafEntriesUnder | js/fileExplorer.js:273 | descending into a folder extends the parent path by `name/` |
| Explorer.PathEndsWithName | js/fileExplorer.js:267 | every listed path ends with the entry's name |
| Explorer.InitialView | js/fileExplorer.js:128-149 | a first-rendered folder is collapsed with a right chevron unless expanded; its container is 30 px per child when expanded, else 0; no container without children |
| Explorer.RenderForest | js/fileExplorer.js:110-112 | the rows of a list of nodes, at least one per node, the first at the given depth; `RenderedFileRows` and `RenderPadding` characterise them |
| Explorer.RenderNode | js/fileExplorer.js:115-176 | a node's own row comes first at its depth, a file row exactly for a file and then alone; a folder's row carries the `12·level + 12` padding and the first-rendered view of its `expanded` flag and child count |
| Explorer.NodeContentsDeeper | js/fileExplorer.js:151-153 | the rows after a folder's own row, its contents, are all nested deeper than it |
| Explorer.InitialViews | js/fileExplorer.js:128-149 | one first-rendered view per folder, from its `expanded` flag and child count |
| Explorer.RenderedFolderViews | js/fileExplorer.js:110-157 | the folder elements are the folders in pre-order, each with the collapsed class, chevron and children max height `renderFolder` gives it |
| Explorer.RenderedFileRows | js/fileExplorer.js:110-176 | the rendered file elements are the file leaves in document order, each at its nesting depth |
| Explorer.RenderPadding | js/fileExplorer.js:129 | every folder row is padded `12·level + 12` px and every file row `12·level + 28` px at its nesting level |
| Explorer.NodePadding | js/fileExplorer.js:164 | the same padding rule for the rows of one node |
| Explorer.RenderedItemsAreAllFiles | js/fileExplorer.js:161-168 | the file elements of the tree correspond one for one, in order, to the entries of `getAllFiles` |
| Explorer.Toggle | js/fileExplorer.js:193-227 | a toggle flips the collapsed class and the chevron; expanding sets max height to 30 px per child and adds `expanding`; collapsing sets 0 and removes it |
| Explorer.ToggleSettles | js/fileExplorer.js:199-226 | after any toggle, the chevron and the container agree with the collapsed class |
| Explorer.ToggleTwice | js/fileExplorer.js:199-226 | toggling a settled folder twice restores it |
| Explorer.CollapsedStartRestored | js/fileExplorer.js:144-148 | a folder first rendered collapsed is back to its first rendering after two toggles |
| Explorer.ExpandedStartGainsExpanding | js/fileExplorer.js:144-146 | a folder first rendered expanded gets back its class, chevron and height after two toggles, but now carries `expanding` |
| Explorer.DocFile | js/fileExplorer.js:6-17 | a discovered PDF is a pdf file named after its path's last segment, content id `doc:` + name, with its url |
| Explorer.DocFiles | js/fileExplorer.js:6-17 | one such file per discovered path, in discovery order |
| Explorer.InsertByName | js/fileExplorer.js:18 | insertion adds exactly one element |
| Explorer.SortByName | js/fileExplorer.js:18 | the sort is a permutation |
| Explorer.InsertKeepsSorted | js/fileExplorer.js:18 | inserting into a sorted list keeps it sorted |
| Explorer.SortIsSorted | js/fileExplorer.js:18 | the sort's result is ordered by name |
| Explorer.BuildDocumentsFolder | js/fileExplorer.js:4-28 | the documents folder is a collapsed `documents` folder with the folder icon, holding a permutation of the discovered PDFs |
| Explorer.DocumentsFolderChildren | js/fileExplorer.js:4-28 | its children are sorted by name, one per discovered path, each a pdf keyed `doc:` + name built from a discovered path |
| Explorer.DefaultFiles | js/fileExplorer.js:31-91 | the forest has six top-level nodes, the documents folder second |
| Explorer.HighlightTarget | js/fileExplorer.js:281-294 | the target is the first element with the content id; failing that and given a name, the first with that name; otherwise none |
| Explorer.HighlightPrefersContentId | js/fileExplorer.js:284-290 | when some element has the content id, the target has it too and comes no later |
| Explorer.HighlightMissesNothing | js/fileExplorer.js:284-293 | with neither the id nor the name present nothing is highlighted |
| Explorer.FileExplorer.constructor | js/fileExplorer.js:30-96 | the given forest rendered: the file elements, and one first-rendered view per folder in pre-order; nothing selected |
| Explorer.FileExplorer.AllFiles | js/fileExplorer.js:260-279 | `getAllFiles` is the leaves-based listing |
| Explorer.FileExplorer.SelectFile | js/fileExplorer.js:229-254 | only the clicked element is marked and active; the descriptor opened carries its content id as id, its name as label, its language and `url \|\| null` |
| Explorer.RenderedUrlsKept | js/fileExplorer.js:168 | no rendered file element carries an empty url, so `url \|\| null` keeps every one |
| Explorer.FileExplorer.HighlightFileByContentId | js/fileExplorer.js:281-294 | every mark is cleared, then only the highlight target is marked and recorded as active (none when there is none) |
| Explorer.FileExplorer.ClearSelection | js/fileExplorer.js:296-299 | no element is marked and no file is active |
| Explorer.FileExplorer.ToggleFolder | js/fileExplorer.js:193-227 | only the clicked folder's view changes, as `Toggle` says; the selection is kept |
| Explorer.FileExplorer.ActiveFile | js/fileExplorer.js:256-258 | the recorded active element |
| Tabs.IconForLanguage | js/tabManager.js:156-170 | the icon table's entry, and `codicon-file` exactly for languages it lacks |
| Tabs.IconColorForLanguage | js/tabManager.js:172-185 | the colour table's entry, and no class exactly for languages it lacks |
| Tabs.LanguageName | js/tabManager.js:192-204 | the display name from the table, else the raw language |
| Tabs.TreeLanguagesKnown | js/tabManager.js:156-204 | the icon, colour class and status-bar name of each language the tree uses (go, rust, markdown, pdf) |
| Tabs.Lookup | js/tabManager.js:97 | a tab is found exactly when the id is registered, and it has that id |
| Tabs.LookupDistinct | js/tabManager.js:97 | with distinct ids the lookup finds the registered tab itself |
| Tabs.WithoutId | js/tabManager.js:123 | the filter drops every tab with the id and keeps all others in order |
| Tabs.WithoutIdCounts | js/tabManager.js:123 | the filter keeps every tab without the id exactly as often as it occurs, and no tab with the id |
| Tabs.WithoutIdDistinct | js/tabManager.js:123 | filtering keeps ids distinct |
| Tabs.Switch | js/tabManager.js:83-85 | the tabs are kept and the id becomes active, registered or not; the active tab is the one registered under the id, if any |
| Tabs.Open | js/tabManager.js:33-44 | after an open the id is registered and active |
| Tabs.OpenExisting | js/tabManager.js:35-39 | opening a registered id changes no tab and no position |
| Tabs.OpenNew | js/tabManager.js:40-48 | opening a new id appends exactly that tab and keeps ids distinct |
| Tabs.OpenIdempotent | js/tabManager.js:33-44 | opening the same tab twice equals opening it once: never a duplicate |
| Tabs.OpenWellFormed | js/tabManager.js:33-48 | opening keeps ids distinct and the active id registered |
| Tabs.Close | js/tabManager.js:118-141 | no tab keeps the id and the rest is a subsequence; an unknown id changes nothing; a closed active id does not stay active; an inactive id leaves the active id alone |
| Tabs.CloseRemoves | js/tabManager.js:123 | closing removes every tab with the id and keeps the others in order |
| Tabs.CloseInactiveKeepsActive | js/tabManager.js:126 | closing an inactive tab keeps the active id |
| Tabs.CloseActive | js/tabManager.js:126-134 | closing the active tab activates the tab now last, or none when no tab is left |
| Tabs.CloseWellFormed | js/tabManager.js:118-141 | closing keeps ids distinct and the active id registered |
| Tabs.CloseOnlyTab | js/tabManager.js:131-134 | closing the only, active tab leaves no tab and no active id |
| Tabs.Scenario | js/tabManager.js:33-143 | open `about`, open `contact`, close `about`, close `contact` passes through the expected registries |
| Tabs.CloseAll | js/tabManager.js:145-150 | no tabs and no active id |
| Tabs.ActiveTab | js/tabManager.js:152-154 | the active tab is registered under the active id; none when the id is null or unregistered |
| Tabs.ElementsFor | js/tabManager.js:88-94 | one element per tab, marked active exactly when its id is the active id |
| Tabs.DropElementsFor | js/tabManager.js:120-123 | removing the elements of an id gives the tab bar of the filtered list |
| Tabs.TabManager.constructor | js/tabManager.js:3-8 | no tabs, no active id, an empty tab bar |
| Tabs.TabManager.GetActiveTab | js/tabManager.js:152-154 | the registry's active tab |
| Tabs.TabManager.UpdateStatusBar | js/tabManager.js:187-210 | the status bar shows the language's name and UTF-8; nothing else changes |
| Tabs.TabManager.SwitchTab | js/tabManager.js:83-109 | the id becomes active and only its elements are marked; a registered id has its content loaded, the status bar updated and its file highlighted, and an unregistered one touches nothing else; the folder views never change |
| Tabs.TabManager.MarkActive | js/tabManager.js:88-94 | the loop marks exactly the elements of the id |
| Tabs.TabManager.CreateTab | js/tabManager.js:46-81 | the registry becomes `Open(old, t)` for a new id: the tab and its element are appended and the tab is switched to; the folder views are unchanged |
| Tabs.TabManager.OpenTab | js/tabManager.js:33-44 | the registry becomes `Open(old, t)` and the tab under the id is activated; the folder views are unchanged |
| Tabs.TabManager.CloseTab | js/tabManager.js:111-143 | the registry becomes `Close(old, id)`; closing the active tab activates the last tab, or, with none left, shows the welcome screen (keeping the cached content) and clears the explorer selection; the status bar changes only when another tab is switched to; an inactive or unknown id leaves content and explorer alone; the folder views never change |
| Tabs.TabManager.RemoveTab | js/tabManager.js:118-123 | the elements and tabs with the id are removed, keeping the tab bar consistent |
| Tabs.TabManager.CloseAllTabs | js/tabManager.js:145-150 | no tabs, no active id, an empty tab bar, the welcome screen with the cached content kept; the status bar is unchanged |
| Theme.EightThemes | js/themeSwitcher.js:9-18 | eight themes, the default among them |
| Theme.DisplayName | js/themeSwitcher.js:69 | a name exactly for known themes, and never empty |
| Theme.OptionMarks | js/themeSwitcher.js:73-81 | exactly the options whose theme is applied are marked |
| Theme.Apply | js/themeSwitcher.js:63-82 | the root attribute becomes the theme, a name is shown exactly for known themes, one mark per option; the result shows the current theme exactly when the applied theme is it; current and stored are kept |
| Theme.Initial | js/themeSwitcher.js:7 | the stored theme when non-empty, known or not, else `vscode-dark`, applied to the root |
| Theme.Switch | js/themeSwitcher.js:55-61 | a known theme becomes current and stored and is shown; an unknown one changes nothing |
| Theme.SwitchKnown | js/themeSwitcher.js:55-61 | a known theme becomes current, applied, shown by name and persisted |
| Theme.SwitchUnknown | js/themeSwitcher.js:56 | an unknown theme changes nothing |
| Theme.SwitchIdempotent | js/themeSwitcher.js:55-61 | switching twice to one theme equals switching once |
| Theme.SwitchShows | js/themeSwitcher.js:55-82 | a switch keeps what is shown consistent with the current theme |
| Theme.InitialShows | js/themeSwitcher.js:23-25 | the initial state shows the current theme |
| Theme.ExactlyOneOption | js/themeSwitcher.js:73-81 | with distinct options, exactly one is marked when the theme is among them, none otherwise |
| Theme.ThemeSwitcher.constructor | js/themeSwitcher.js:3-21 | the initial state, dropdown closed |
| Theme.ThemeSwitcher.ApplyTheme | js/themeSwitcher.js:63-82 | the root attribute, the name and the option marks of the theme; the loop marks exactly the matching options |
| Theme.ThemeSwitcher.SwitchTheme | js/themeSwitcher.js:55-61 | the state becomes `Switch(old, theme)` |
| Theme.ThemeSwitcher.ToggleDropdown | js/themeSwitcher.js:33-36 | the dropdown flips; the theme state is unchanged |
| Theme.ThemeSwitcher.CloseDropdown | js/themeSwitcher.js:39-43 | the dropdown closes; the theme state is unchanged |
| Theme.ThemeSwitcher.SelectOption | js/themeSwitcher.js:46-52 | the option's theme is switched to and the dropdown closes |
| App.KeyName | js/main.js:78 | a missing key reads as empty; a present one keeps its length and has no capital letter left |
| App.KeyActions | js/main.js:75-96 | at most one action per key; the palette toggles exactly for Ctrl/Cmd with key `p`, the sidebar exactly for Ctrl/Cmd with `b`, the palette closes exactly for `escape`, all case-insensitively |
| App.LetterKey | js/main.js:78 | a key lowercases to a letter exactly when it is that letter or its capital |
| App.PaletteShortcut | js/main.js:81-84 | the only action is the palette toggle exactly for Ctrl/Cmd with `p` or `P` |
| App.SidebarShortcut | js/main.js:87-90 | the only action is the sidebar toggle exactly for Ctrl/Cmd with `b` or `B` |
| App.EscapeCloses | js/main.js:93-95 | the only action is closing the palette exactly for Escape in any capitalisation and with any modifiers |
| App.NameFilter | js/main.js:170-172 | the kept entries are a subsequence: exactly those whose lowercase name contains the query, each as often as it occurs in the file list |
| App.FilterFiles | js/main.js:163-172 | an empty query lists nothing; otherwise the name filter |
| App.PaletteMatchIgnoresCase | js/main.js:147-172 | for typed text, the palette lists exactly the files whose name contains it ignoring case, in file-list order |
| App.DisplayText | js/main.js:186 | the path, falling back to the name |
| App.ResultItem | js/main.js:181-187 | a result shows the language's icon classes and the display text |
| App.RenderResults | js/main.js:176-202 | one result per file in order, and only the first is selected |
| App.EnterSelectsFirst | js/main.js:152-158 | Enter picks the first result, or nothing when there are none |
| App.ResultTab | js/main.js:190-196 | the opened descriptor has the content id as id, the name as label, the language and `url \|\| null` |
| App.Submit | js/main.js:350-368 | the thank-you notice exactly when all four fields are non-empty, then all are cleared; otherwise the fields are unchanged |
| App.SubmitTwice | js/main.js:356-364 | a form just sent is refused when sent again |
| App.SubmitMissingField | js/main.js:365-367 | one empty or missing field is enough to refuse the form unchanged |
| App.Workbench.Setup | js/main.js:46-72 | the components created and wired together: no content loaded, the explorer holding the default forest with the discovered PDFs as first rendered (one initial view per folder) with nothing selected, no tabs and an empty status bar, the initial theme with its dropdown closed, the palette hidden, the sidebar open, the welcome screen shown |
| App.Workbench.constructor | js/main.js:53-58 | the application holds the given components, with the palette hidden and inactive, its input and results empty, and the sidebar open |
| App.Workbench.NewExplorer | js/main.js:50 | a consistent explorer holding the default forest with the discovered PDFs, its file elements and folder views as first rendered (one initial view per folder, in pre-order), nothing selected |
| App.Workbench.FilterInto | js/main.js:163-203 | the results are the rendered filter of the file list for the query |
| App.Workbench.OpenPalette | js/main.js:213-252 | the palette is shown and active with the results for the lowercased current input |
| App.Workbench.ClosePalette | js/main.js:254-270 | the palette is inactive and hidden and the input cleared; the results stay |
| App.Workbench.TogglePalette | js/main.js:205-211 | an active palette closes, an inactive one opens |
| App.Workbench.ToggleSidebar | js/main.js:272-296 | sidebar and container collapsed classes flip together |
| App.Workbench.HandleKeyDown | js/main.js:75-96 | per key: the palette shortcut toggles the palette as `TogglePalette` does, the sidebar shortcut flips sidebar and container together, Escape closes the palette; each leaves everything else unchanged, and other keys change nothing |
| App.Workbench.PaletteInput | js/main.js:147-150 | the input becomes the typed text and the results follow its lowercased form; palette visibility, sidebar and container are unchanged |
| App.Workbench.CommitResult | js/main.js:189-199 | the registry becomes `Open(old, d)` for the result's descriptor, whose tab is activated, highlighted and displayed, with its language name and `UTF-8` in the status bar; the palette closes with its results kept; folder views, sidebar, container, form and theme are unchanged and the theme dropdown closes |
| App.Workbench.PaletteEnter | js/main.js:152-158 | with a selected result, everything `CommitResult` states for the first selected one; without one nothing changes |
| App.Workbench.OpenAndLoad | js/main.js:190-197 | the registry becomes `Open(old, d)`, the tab under `d.id` is active and highlighted, `d`'s content is displayed with it, and the status bar shows the tab's language name and `UTF-8`; the folder views are unchanged |
| App.Workbench.Reload | js/main.js:197 | the second load displays `d`'s content with the tab under `d.id` as the active tab |
| App.Workbench.OpenKeepsContentIds | js/main.js:190-196 | opening a descriptor keyed by its content id keeps every tab keyed by its content id |
| App.Workbench.ClickFile | js/fileExplorer.js:229-254 | a tree click makes the registry `Open(old, d)` for the clicked element's descriptor (with `url \|\| null`) and displays its tab, with its language name and `UTF-8` in the status bar; the highlight then falls on the first element with the same content id, at or before the clicked one; the folder views and the application's own fields are unchanged |
| App.Workbench.ClickFolder | js/fileExplorer.js:180-184 | a folder click toggles that folder only; the selection is unchanged |
| App.Workbench.ClickTab | js/tabManager.js:78-80 | a tab click makes the registry `Switch(old, id)` and activates that tab; the folder views are unchanged and the theme dropdown closes |
| App.Workbench.ClickTabClose | js/tabManager.js:72-75 | a close click makes the registry `Close(old, id)` with everything `CloseTab` states: the last tab activated, or the welcome screen and a cleared selection, the status bar kept unless a tab is switched to, content and explorer untouched for an inactive tab |
| App.Workbench.CloseKeepsContentIds | js/tabManager.js:123 | closing keeps every remaining tab keyed by its content id |
| App.Workbench.SubmitContactForm | js/main.js:342-347 | the form button submits the form as `Submit` says; palette, results, sidebar and container are unchanged and the theme dropdown closes |

## Left out

- Rendering, layout and animation: the `innerHTML` templates, the fades, the `closing` tab animation, the sidebar's `no-transition` class (its net effect is nothing), the focus-retry chain of `openCommandPalette`, scroll position and `animations.js`. The DOM is reduced to the fields listed above. The mounted state records the container class and the markup but not the classes `renderContent` puts on each `<pre>`; `Content.PreHasLineNumbers` states that decision on its own.
- Timing: every deferred callback runs at once and atomically. The model does not capture a deferred callback overtaking a later action. One example is the 260 ms hide firing after the palette was reopened.
- `syntaxHighlighter.js` is not part of this model. A load records only whether highlighting was requested.
- `updateLineCount`, `applyTypingEffect`, `showLoading`, `hideLoading` and `markTabAsModified` are not modelled. They only write text and classes that nothing in the core reads.
- `handleActivityView` and the activity-bar icons are not modelled, since every branch of the switch is empty. The mobile menu and its resize handling are not modelled either, since they are layout.
- The alerts of the contact form are not modelled. The result says which of the two messages is shown.
- Strings: lowercasing and trimming are ASCII only. No Unicode case mapping is modelled.
- The file-name sort uses the lexicographic order of code points (Unicode scalar values) instead of `localeCompare`'s locale order.
- Strings are sequences of Unicode scalar values, not of UTF-16 code units. String lengths and `substring(0, 100)` in the search preview therefore count scalar values. A line with characters outside the Basic Multilingual Plane, such as emoji, gets a longer preview in the model than in the browser.
- Explorer.FileExplorer.constructor: it receives the forest instead of building it, so that its rendering facts are proved for any forest. `App.Workbench.NewExplorer` passes `DefaultFiles(discovered)`, the forest the source's constructor builds.
- Explorer.SortByName: the contract states order and permutation but not stability. The insertion sort keeps equal names in discovery order, as `Array.prototype.sort` does, but no lemma says so.
- Lookups by key (`contentMap[key]`, `icons[lang]`, `themes[theme]`) treat only the listed keys as present. JavaScript would also find inherited object members such as `constructor`.
- The build-time PDF discovery (`import.meta.glob`) becomes the parameter `discovered` of `Workbench.Setup`: the merged path and url pairs in insertion order.
- Local storage is the `stored` field of the theme switcher. The dropdown's options are given by their theme values, since the page markup is not part of this model.
- App.Workbench.ClickTab: a tab click runs `switchTab` twice in the source, once from the tab's own listener and once from the tab bar's delegated listener. The model runs it once. The second run repeats the same switch.
- Tabs.TabManager.CloseTab: `closeTab` finds the tab element with a CSS selector built from the raw id. For an id containing `"` (a discovered PDF named `a"b.pdf` gives `doc:a"b.pdf`) the selector is invalid and `querySelector` throws, and an id containing `\` is read as a CSS escape and matches nothing; either way the source never closes that tab. The model closes it as for any other id.
- App.Workbench.ClickTabClose: closes a tab whose id contains `"` or `\` for the same reason, where the source leaves it open.
- The tab manager's, explorer's and palette's own lookups of missing DOM elements (a `null` element) are not modelled. Every element the core looks up is assumed present, except the contact form fields, which may be missing.

Three behaviours of the code worth knowing, which the model keeps as written:

- `switchTab` with an unregistered id still makes that id the active id and clears every tab's `active` class. It touches nothing else.
- A stored theme that is not in the table is kept and applied as is, with no display name.
- `selectFile` marks the element and then opens the tab and loads the content itself. `FileExplorer.SelectFile` marks the element and returns the descriptor it opens. `Workbench.ClickFile` then performs the open-and-load sequence with that descriptor.
