# Album selection in slide-show-viewer, modelled in Dafny

slide-show-viewer is an Electron photo viewer. Its album selector lets the user
choose one or more root folders. It walks every folder below them breadth first,
and turns each folder that holds pictures into an album record: cover, picture
count, path, time stamp (`ctime`) and name. It then shows the albums page by page, 20
covers to a page. The album list can be filtered by name and sorted by path,
name, date or size. Every album shown and every page count is announced to the
selector's listeners.

This project models two selectors:

- the application's selector (`app/services/AlbumSelector.js`), as the class
  `AlbumSelection.AlbumSelector`;
- the older Electron selector (`electron/selector.js`), as the class
  `LegacySelection.AlbumSelector`.

Both classes keep the source's fields (`start`, `end`, `albums`, `allAlbums`,
and for the older selector also `folders`). The listeners become one
append-only log of notices, `sent`, kept in sending order. The filesystem is a
finite tree, `map<Path, Folder>`. Each `Folder` holds its files, its
sub-folder names, its `ctime` time stamp and an optional cover override. The walk
of `#processFolders` is specified by the ghost function `Folders.Walk`. Each
selector's scan loop is proved against that function, and the order and
coverage of the walk are proved as lemmas.

The project also models the small helpers the selectors and windows rely on:

- window configuration (`app/services/WindowConfigurer.js`), in module
  `WindowConfig`:
  - `fromTemplate`, which projects JSON values onto a template;
  - the security filter `{x, y, width, height}`;
  - the settings-loading outcome, with fallback to the defaults;
  - the object spreads that merge settings;
  - the size and position guards.

  JSON values are a datatype with ordered members. Property reads, spreads
  and truthiness follow JavaScript's rules for own properties. Key order is
  insertion order (see "## Left out").
- the renderer controller (`electron/controller.js`), in module `Controller`:
  - `isImage`;
  - `replaceAndWrap`;
  - the command string that `execute` builds.

Sorting (`Sorting`) is a stable insertion sort, because `Array.prototype.sort`
is stable. It is proved sorted, a permutation, order-preserving on ties, and
monotone for subsequences. The last property keeps the class invariant "albums
on show are a subsequence of all albums" true across `sortAlbums`.

Two behaviours of the code that a reader might not expect are kept as
written:

- The application's comparator map registers `"date_asc"`, `"date_desc"` and
  `"size_asc"` with underscores, but `"path-asc"`, `"name-asc"`, `"size-desc"`
  and the others with hyphens. The model keeps these keys as written, so
  `"date-asc"` falls back to folder order (`Sorting.HyphenatedKeysFallBack`).
- `selectRootFolder` and `openWindow` clear `albums` before the dialog opens.
  If no folder is chosen, the list on show stays empty, while `allAlbums`
  keeps its old value.

## Model

| member | source | states |
|---|---|---|
| AlbumSelection.AlbumSelector.constructor | app/services/AlbumSelector.js:33-47 | a new selector shows the first window `[0, coversPerPage)` with no albums and nothing sent |
| AlbumSelection.AlbumSelector.GetPageInfo | app/services/AlbumSelector.js:177-179 | through `#createPageInfo` (lines 73-77), the page count is the fewest pages of `coversPerPage` that hold the albums on show, and zero exactly when none are shown |
| AlbumSelection.AlbumSelector.NotifyPageInfo | app/services/AlbumSelector.js:109-112 | one page-information notice is appended, and nothing else changes |
| AlbumSelection.AlbumSelector.ProcessAlbum | app/services/AlbumSelector.js:114-121 | an album with pictures is appended, and it is announced iff the list before it was shorter than `end` (`<=` after the push); an album without pictures changes nothing |
| AlbumSelection.AlbumSelector.ScanFolders | app/services/AlbumSelector.js:123-129 | the loop appends the albums of exactly the folders of the breadth-first walk, in walk order, and announces those that land below `end` |
| AlbumSelection.AlbumSelector.ProcessFolders | app/services/AlbumSelector.js:123-131 | after the scan, the full list equals the list on show, and the selector invariant (albums on show form a subsequence of all albums) holds |
| AlbumSelection.AlbumSelector.LoadFolders | app/services/AlbumSelector.js:96-103 | with a non-empty choice, the folders are scanned and a page count is sent; an empty choice is refused (`NOTHING_TO_LOAD_ERROR`) and changes nothing |
| AlbumSelection.AlbumSelector.ResetForDialog | app/services/AlbumSelector.js:150-152 | before the dialog opens, the list on show is emptied and the window returns to the first page |
| AlbumSelection.AlbumSelector.SelectRootFolder | app/services/AlbumSelector.js:149-163 | the albums of the chosen trees are shown in walk order; the scan announces exactly the covers of the first page, followed by the page count; `onLoad` runs iff something was chosen |
| AlbumSelection.AlbumSelector.LoadPage | app/services/AlbumSelector.js:141-147 | the window moves to `[page*n, page*n+n)`, and one notice is sent per index in it, `undefined` past the end of the list |
| AlbumSelection.AlbumSelector.FilterByName | app/services/AlbumSelector.js:79-88 | the albums on show become those of the full list whose name contains the text (all of them for empty text), followed by a page count and the first page |
| AlbumSelection.AlbumSelector.FilterAlbums | app/services/AlbumSelector.js:135-139 | a name filter acts as above; any other filter type changes nothing |
| AlbumSelection.AlbumSelector.SortAlbums | app/services/AlbumSelector.js:169-175 | both lists are sorted by the registered comparator (folder order for an unknown key), and the invariant that the shown albums are a subsequence of all albums survives |
| AlbumSelection.ScanMatchesFirstPage | app/services/AlbumSelector.js:117 | from the reset state, the albums announced during the scan are exactly the albums on the first page |
| LegacySelection.AlbumSelector.constructor | electron/selector.js:34-47 | a new selector shows the first window, with no folders, no albums and nothing sent |
| LegacySelection.AlbumSelector.NotifyPageInfo | electron/selector.js:116-119 | one page-information notice is appended, and nothing else changes |
| LegacySelection.AlbumSelector.ProcessAlbum | electron/selector.js:121-128 | an album with pictures is appended, and it is announced only if the list after the push is shorter than `end` |
| LegacySelection.AlbumSelector.ScanFolders | electron/selector.js:130-136 | the albums of the breadth-first walk are appended in walk order, and the first `end - 1` of them are announced |
| LegacySelection.AlbumSelector.ProcessFolders | electron/selector.js:130-138 | after the scan, the full list equals the list on show |
| LegacySelection.AlbumSelector.LoadFolders | electron/selector.js:96-99 | the stored folders are scanned, then the page count is sent |
| LegacySelection.AlbumSelector.LoadWindow | electron/selector.js:101-110 | a non-empty choice is stored and scanned; an empty choice changes nothing |
| LegacySelection.AlbumSelector.ResetForDialog | electron/selector.js:160-164 | before the dialog opens, the list on show and the chosen folders are emptied, and the window returns to the first page |
| LegacySelection.AlbumSelector.OpenWindow | electron/selector.js:160-167 | the albums of the chosen trees are shown in walk order, and a full first page is announced without its last cover |
| LegacySelection.AlbumSelector.LoadPage | electron/selector.js:148-154 | the window moves to `[page*n, page*n+n)`, and one notice is sent per index in it |
| LegacySelection.AlbumSelector.FilterByName | electron/selector.js:79-88 | the albums on show become the name matches from the full list, followed by a page count and the first page |
| LegacySelection.AlbumSelector.FilterAlbums | electron/selector.js:142-146 | a name filter acts as above; any other filter type changes nothing |
| LegacySelection.AlbumSelector.SortAlbums | electron/selector.js:173-179 | both lists are sorted by the `AlbumSorter` comparator, with folder order for any other value |
| LegacySelection.ScanMissesLastSlot | electron/selector.js:124 | from the reset state, with a full first page, the scan announces `perPage - 1` albums, and the missing one is the last cover of the first page |
| Albums.Pictures | app/services/AlbumSelector.js:61 | every picture is an image entry of the folder, and every image entry is a picture |
| Albums.PicturesExactly | app/services/AlbumSelector.js:61 | each image entry is kept as often as it is listed, and every other entry is dropped, so the album `count` (line 66) is the number of image entries |
| Albums.PicturesAppend | app/services/AlbumSelector.js:61 | the filter keeps listing order: the pictures of two concatenated listings are the pictures of the first, then those of the second |
| Albums.FirstPictureIsFirstImage | app/services/AlbumSelector.js:55 | the default cover is the first image in the file list: no earlier file is an image |
| Albums.AlbumDescribesFolder | app/services/AlbumSelector.js:49-71 | the album that `CreateAlbum` (`#createAlbum`) builds, with its cover from `CoverFor` (`#computeProperties`), carries the folder's path, its basename and its `ctime`; its count is positive iff the folder has an image; its cover is the stored override if there is one, otherwise the first image |
| Albums.Discovered | app/services/AlbumSelector.js:114-116 | the albums kept from a visit sequence all have pictures, and there are no more of them than folders visited |
| Albums.DiscoveredExactly | app/services/AlbumSelector.js:114-129 | an album is kept iff it is the album of some visited folder and that album has pictures |
| Albums.PageCount | app/services/AlbumSelector.js:75 | `Math.ceil(n / perPage)`: the fewest pages that hold `n` albums |
| Albums.PageShowsWindow | app/services/AlbumSelector.js:144-146 | the defined notices of a page are exactly the slice of the albums that falls in the window, and the number of `undefined` notices is the part of the window past the end of the list |
| Albums.Announced | app/services/AlbumSelector.js:117-118 | the announced albums are the found albums, in order, from `before` up to the limit |
| Albums.NameMatches | app/services/AlbumSelector.js:83-84 | the filter keeps a subsequence of the albums, and every kept album's name contains the text |
| Albums.NameMatchesExactly | app/services/AlbumSelector.js:83-84 | each album occurs in the filtered list as often as in the full list if its name contains the text, and not at all otherwise |
| Albums.EmptyNameKeepsAll | app/services/AlbumSelector.js:80-81 | filtering by empty text keeps every album, so the empty-name branch agrees with the general filter |
| Albums.SubsequenceTransitive | app/services/AlbumSelector.js:83-84 | a filtered list of a sorted or filtered list is still a subsequence of the full list |
| Albums.SubsequenceElements | app/services/AlbumSelector.js:83-84 | a subsequence holds no album more often than the full list |
| Folders.SubFolders | app/services/AlbumSelector.js:90-94 | a folder's sub-folder paths are its sub-folder names joined to its path, in listing order |
| Folders.BasenameOfJoin | app/services/AlbumSelector.js:127 | `path.basename` of a joined sub-folder path gives back the sub-folder's name |
| Folders.Walk | app/services/AlbumSelector.js:123-129 | the folders visited by the queue loop; every visited path is a folder of the tree |
| Folders.WalkBreadthFirst | app/services/AlbumSelector.js:123-129 | the walk visits the queued folders first, then the walk of their sub-folders taken level by level |
| Folders.WalkLevels | app/services/AlbumSelector.js:123-129 | folders queued behind the current level are visited before the next level |
| Folders.WalkStartsWithQueue | app/services/AlbumSelector.js:124-126 | the walk begins with the chosen folders, in the order chosen |
| Folders.WalkVisitsSubFolders | app/services/AlbumSelector.js:128 | every sub-folder of a visited folder is visited later |
| Folders.WalkLength | app/services/AlbumSelector.js:123-129 | the walk visits as many folders as the chosen trees hold, counted with repetition |
| Folders.WalkStaysBelow | app/services/AlbumSelector.js:123-129 | every visited folder lies below one of the chosen folders |
| Sorting.ComparatorFor | app/services/AlbumSelector.js:170 | a registered key picks its comparator, and any other key picks folder order |
| Sorting.HyphenatedKeysFallBack | app/services/AlbumSelector.js:25-28 | `"date-asc"`, `"date-desc"` and `"size-asc"` are not registered, so they sort by folder; `"size-desc"` sorts by size, descending |
| Sorting.LegacyComparatorFor | electron/selector.js:23-31 | each `AlbumSorter` constant picks the comparator for its key, and any other value picks folder order |
| Sorting.CompareFlips | app/services/AlbumSelector.js:13-28 | every comparator is antisymmetric: swapping the albums negates the result (`Compare` itself defines each descending comparator as the ascending one with its arguments swapped) |
| Sorting.CompareTransitive | app/services/AlbumSelector.js:13-16 | each comparator orders albums transitively |
| Sorting.Sort | app/services/AlbumSelector.js:171-172 | sorting returns a permutation of the list |
| Sorting.SortSorts | app/services/AlbumSelector.js:171-172 | the sorted list is ordered by the comparator |
| Sorting.SortKeepsTies | app/services/AlbumSelector.js:171-172 | albums that compare equal keep their relative order, because the sort is stable |
| Sorting.SortKeepsSubsequence | app/services/AlbumSelector.js:171-172 | sorting a subsequence of a list gives a subsequence of the sorted list |
| Text.Compare | app/services/AlbumSelector.js:13-14 | string order is a three-way comparison that is zero exactly for equal strings |
| Text.CompareAntisymmetric | app/services/AlbumSelector.js:13-14 | swapping the strings negates the comparison |
| Text.IncludesIffOccurs | app/services/AlbumSelector.js:84 | `includes` holds iff the text occurs at some position of the name |
| Text.NatToStringInjective | app/services/WindowConfigurer.js:7 | distinct indices render as distinct decimal strings, so the index keys `for...in` yields for an array or a string are distinct |
| Controller.ImageIffPictureExtension | electron/controller.js:3-12 | `IsImage`: an entry is an image iff it is a regular file and its extension is `.jpg`, `.png` or `.gif` in any letter case |
| Controller.NonFileIsNeverImage | electron/controller.js:6-11 | a directory or other non-file is never an image, whatever its extension |
| Controller.ReplaceAndWrap | electron/controller.js:14-17 | the result is single-quoted, and its interior is `EscapePairs` of the argument: each left-to-right, non-overlapping pair of backslashes doubled |
| Controller.ReplaceAndWrapLength | electron/controller.js:14-17 | the result is two quotes plus two characters per replaced pair longer than the argument |
| Controller.NoPairLeftUnchanged | electron/controller.js:15 | text without a backslash pair, including text with lone backslashes and single quotes, is left unchanged |
| Controller.CollapseUndoesEscape | electron/controller.js:15 | the pair doubling is undone by collapsing each four-backslash run back to two, so no information is lost |
| Controller.ExecuteCommand | electron/controller.js:45-47 | the command starts with the method name and `(`, and ends with `);` |
| Controller.JoinWithSnoc | electron/controller.js:47 | `join` of one more part adds the separator and that part at the end |
| Controller.ExecuteNoArgs | electron/controller.js:45-47 | without arguments the command is `method();` |
| Controller.ExecuteOneArg | electron/controller.js:45-47 | one argument of either kind is written alone between the parentheses, a string through `replaceAndWrap` and a number in decimal |
| Controller.ExecuteAppendArg | electron/controller.js:45-47 | for any number of arguments, one more argument inserts `", "` and that argument's rendering before the closing `);`, so with `ExecuteOneArg` every arity is fixed |
| Controller.ExecuteOneString | electron/controller.js:45-47 | one string argument gives `method('escaped');` |
| Controller.ExecuteTwoArgs | electron/controller.js:45-47 | a number then a string give `method(n, 'escaped');`, with the number unquoted and a comma-space between |
| Controller.ApostropheClosesLiteral | electron/controller.js:14-17 | a wrapped argument containing an apostrophe is not one JavaScript string literal |
| Controller.EscapedQuoteLosesBackslash | electron/controller.js:14-17 | a lone backslash before a quote in the argument is consumed as an escape in the literal |
| Controller.QuoteArgRoundTrip | electron/controller.js:14-17 | the corrected quoting reads back, as a JavaScript string literal, to exactly its argument |
| WindowConfig.FromTemplate | app/services/WindowConfigurer.js:5-16 | the projection fails (a TypeError in JavaScript) iff the values are `null`/`undefined` and the template has keys; otherwise it yields an object |
| WindowConfig.ProjectShape | app/services/WindowConfigurer.js:5-16 | the projection has exactly the template's keys, each read from the values: a falsy or non-object value as is, an object projected onto the sub-template |
| WindowConfig.ProjectIdempotent | app/services/WindowConfigurer.js:5-16 | projecting an already projected value changes nothing |
| WindowConfig.FromTemplateIdempotent | app/services/WindowConfigurer.js:85 | filtering settings that were filtered before storing gives the same settings |
| WindowConfig.SecurityFilterShape | app/services/WindowConfigurer.js:116-118 | filtered settings hold exactly `x`, `y`, `width` and `height`, read from the file; any other key reads as `undefined` |
| WindowConfig.SpreadRead | app/services/WindowConfigurer.js:39 | in `Spread(a, b)`, the model of `{...a, ...b}`, a key of `b` reads from `b`, any other key of `a` from `a`, and every other key is `undefined` |
| WindowConfig.LoadSettings | app/services/WindowConfigurer.js:68-81 | loading is rejected iff the file cannot be read; it resolves to the filtered content iff that filtering succeeds |
| WindowConfig.SettingsFallBackAndOverride | app/services/WindowConfigurer.js:37-39 | in `EffectiveSettings`, the settings handed to the guards, an unreadable file falls back to the defaults; the additional settings win over both; settings reach the window iff loading settled |
| WindowConfig.ReloadGivesStoredSettings | app/services/WindowConfigurer.js:83-86 | bounds kept by `StoredSettings` (the filtering of `storeSettings`) load back as the same filtered settings |
| WindowConfig.ConfigurePosition | app/services/WindowConfigurer.js:61-65 | the window is moved iff both `x` and `y` are truthy, to `(x, y)` |
| WindowConfig.ConfigureSize | app/services/WindowConfigurer.js:55-59 | the window is resized iff both `width` and `height` are truthy, to `(width, height)` |
| WindowConfig.ZeroCoordinateSkipsMove | app/services/WindowConfigurer.js:62 | stored bounds with `x == 0` or `y == 0` never move the window |
| WindowConfig.StoredSizeRestored | app/services/WindowConfigurer.js:56 | stored bounds restore the size iff both width and height are non-zero |
| WindowConfig.InitialOptionsKeepSecurity | app/services/WindowConfigurer.js:35 | the window options keep `show: false` and the secure `webPreferences` unless the additional settings supply their own |

## Left out

- Electron plumbing (`BrowserWindow`, dialogs, `webContents.send` and
  `executeJavaScript`, popups, dev tools, `window.show`, the close handler):
  these are foreign calls. The listeners are a notice log, and the folders
  chosen in a dialog are an input.
- Promise scheduling: the part of `selectRootFolder` and `openWindow` that runs
  before the dialog is separate from the part that runs after it. Other
  interleavings of user actions with a running scan are not modelled.
- `fs` calls: reading a directory, `statSync` and `loadFiles` are read from the
  tree. The order of files within a folder is taken as given.
- `loadAlbumProps` and `parseFilePath`: a folder carries an optional cover
  override instead. `fs-actions.js` is not part of this model.
- The selectors' own `isImage` functions are not part of this model: the
  application imports it from `model/imageFileHelper`
  (app/services/AlbumSelector.js:4), and the older selector from
  `shared/slide-show` (electron/selector.js:5). Both selectors use the
  controller's `isImage` instead.
- Sorting.CompareBy: `localeCompare` is modelled as char-code order, because
  locale collation is outside Dafny.
- Albums.AlbumDescribesFolder: the album's `created` field is `stats.ctime`,
  which in Node is the time of the last status change, not the birth time.
  The model takes it as a given integer (milliseconds) per folder rather than
  a `Date` object.
- Floating point: `NaN`, fractional sizes and window coordinates are left
  out, and numbers are integers.
- JSON: parsing a file that is not valid JSON is left out. So is
  `JSON.stringify` dropping `undefined` members when settings are stored.
  Settings are stored and loaded as the value itself.
- Inherited properties: prototype-chain properties are not enumerated.
- WindowConfig.Keys: object keys are listed in insertion order. JavaScript
  lists integer-like keys first, in ascending order, in `for...in` and in
  spreads. The order does not matter for the security filter, whose keys are
  not integer-like, but the model does not promise JavaScript's order for
  other objects.
- Text: a `char` is a Unicode scalar value, while a JavaScript string counts
  UTF-16 code units. A character outside the Basic Multilingual Plane has
  length 1 here and 2 in JavaScript, and that affects string `length`, index
  keys and the character at an index.
- `path.join` normalisation: joining is `folder + "/" + name`. Trees are
  well-formed, so every listed sub-folder is a key.
- File locations and directory creation (`#getOrCreateSettingsFilePath`,
  `#getOrCreateConfigPath`) and the write in `storeSettings` are I/O.
  Storing is modelled only through `StoredSettings`.
- `openAlbum` in the controller: it reads files and sends them one by one
  through I/O callbacks.
- `showAlbumPopup`, `openDevTools`, `reload` and `initialize`: these only
  forward to Electron.
- The menus, `ConfigService`, `Channel` and the module-level singletons are
  context, not selector logic.
- The selectors require `coversPerPage > 0`. The source never creates a
  selector with zero covers per page (it always uses `COVERS_PER_PAGE = 20`),
  and `Math.ceil(n / 0)` has no integer value.
- AlbumSelection.AlbumSelector.ScanFolders: a scan that throws is not
  modelled. In the source, `fs.statSync` or `fs.readdirSync` can throw in the
  middle of the walk (app/services/AlbumSelector.js:63, 91), for instance for
  a folder removed during the scan or a dangling link among a folder's files.
  The walk then stops before `allAlbums` is reset (line 130) and before the
  page count is sent. `albums` is left partly filled while `allAlbums` keeps
  the previous scan, so `Valid()` (the albums on show form a subsequence of all
  albums) need not hold. The `.catch` at lines 156-161 rethrows the error.
  The model assumes every directory listing and stat succeeds.
- LegacySelection.AlbumSelector.ScanFolders: the same abort is not modelled
  for the older selector (electron/selector.js:63, 91). There it stops the
  scan before `allAlbums` is reset (line 137) and before the page count is
  sent, and the error is left unhandled.
- Folders.Walk: termination is shown on finite well-formed trees. A tree
  whose sub-folder links form a cycle through symbolic links is not modelled.

## Findings

| source | as written | input that shows it | evidently intended | confidence | as-written member | corrected member |
|---|---|---|---|---|---|---|
| electron/selector.js:124 | `this.albums.length < this.end` after the push announces an album only while the list is shorter than the window end | 20 or more albums found with 20 covers per page: the scan announces albums 1-19, and the 20th cover of the first page stays empty until the next page request | announce every album that lands on the current page (`<=`, as the newer selector does at app/services/AlbumSelector.js:117) | medium, not executed | LegacySelection.ScanMissesLastSlot | AlbumSelection.ScanMatchesFirstPage |
| electron/controller.js:14-17 | only backslash pairs are escaped, and the argument is wrapped in single quotes | `Mum's` yields `'Mum's'`, which does not parse as one string literal; `a\"b` reads back as `a"b` | quote every argument so that the JavaScript literal reads back to the argument itself | high, not executed | Controller.ApostropheClosesLiteral | Controller.QuoteArgRoundTrip |
