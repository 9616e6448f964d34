# kcursor theme resolution, in Dafny

This project models the core of the `kcursor` crate (`src/lib.rs`), which loads X11/KDE cursor
themes. It covers the following parts:

- **The search path** (`user_theme_dirs`, `xdg_data_dirs`, `CURSOR_DIRS`). This is the ordered
  list of icon roots built from `XDG_HOME`/`HOME`, `XDG_DATA_HOME` and `XDG_DATA_DIRS`, with
  `PathBuf::join` and `std::env::split_paths` as they behave on Unix (`paths.dfy`).
- **The theme-index reader** (`theme_inherits`). It finds the parent theme declared by the first
  `Inherits=` line of an `index.theme` that carries a value (`theme_index.dfy`).
- **The icon-directory scanner** (`discover_cursors`). It fills the shape cache from one
  `cursors_scalable` or `cursors` directory: non-links first, then links. A link becomes an alias
  of a target already cached, and a shape already present is never overwritten (`scanner.dfy`).
- **Theme loading** (`load`, `discover`, `icon`). A stack of theme names walks the inheritance
  chain. For each theme every root is visited in order: the SVG directory is preferred to the X
  cursor directory, and the first declared parent is kept. `load` yields no theme when nothing
  was found (`theme.dfy`).
- **Frame selection** (`CursorIcon::frames`). An X cursor icon yields the decoded images of the
  size nearest the request. An SVG icon yields one rendered image per metadata record. An empty
  result is always `None` (`cursor_icon.dfy`).

Shared `Arc<CursorIcon>` handles are modelled as indices into an arena of icons: two shapes share
an icon exactly when they map to the same handle. The `&mut HashMap` cache is passed in and
returned as a value. Panics (`unwrap`, `expect`, `assert_eq!`) are an explicit
`Outcome.Panicked` result. The file system and the environment are arguments:

- a map from theme directory paths to their two listings and the text of `index.theme`;
- a record of the four environment variables.

`discover` and `discover_cursors` keep the source's loops (`Theme.Discover`, `Scanner.ProcessEntries`).
Each is proved equal to a recursive specification function (`Theme.DiscoverSpec`,
`Scanner.ScanFrom`), and the properties are proved as lemmas about those functions.

Four behaviours of the code are worth stating plainly, since a reader might expect otherwise:

- A directory that `read_dir` cannot list makes `discover_cursors` panic at the `unwrap` on
  src/lib.rs:119. The model returns `Panicked(ReadDirFailed)`. A directory that does not exist
  is never scanned, because `discover` checks `is_dir` first.
- A link whose target is not a bare file name makes the
  `assert_eq!(target.file_name(), Some(target.as_os_str()))` on src/lib.rs:134 panic, so the scan
  yields `Panicked(LinkTargetNotFileName)`. The target is what `read_link` returns, without
  canonicalisation. A link is looked at once: when its target is not yet a shape at that moment,
  the link is dropped and never retried, so a link to a later link of the same directory is lost.
- The home directory is `XDG_HOME` when set, else `HOME` (`XDG_HOME` is not a standard variable).
  A set but empty `XDG_DATA_DIRS` gives the single relative root `icons`; the `/usr/share/icons`
  fallback applies only when the variable is unset.
- On an inheritance cycle of any length `discover` never returns unless a scan on the cycle
  panics. There is no visited set.

## Model

| member | source | states |
|---|---|---|
| Paths.Join | src/lib.rs:25-41 | the result ends with `name`; it starts with `base` when `name` is relative; an absolute `name` replaces `base` |
| Paths.SplitPaths | src/lib.rs:23 | at least one piece, and no piece contains `:` |
| Paths.SplitThenJoin | src/lib.rs:23 | joining the pieces of `s` with `:` gives back `s` |
| Paths.JoinThenSplit | src/lib.rs:23 | splitting pieces joined with `:` gives back the pieces, when none contains `:` |
| Paths.Home | src/lib.rs:32-35 | `XDG_HOME` when set, otherwise `HOME` |
| Paths.DataHome | src/lib.rs:37-39 | `XDG_DATA_HOME` when set, otherwise `.local/share` joined to the home directory |
| Paths.CursorDirsOrder | src/lib.rs:18-48 | the data-home `icons` root, then `$HOME/.icons`, then one `icons` root per `XDG_DATA_DIRS` piece in order, or `/usr/share/icons` when unset |
| Paths.UserRootsFirst | src/lib.rs:31-48 | with a home set, the data-home `icons` root comes first, `$HOME/.icons` second, then the system roots |
| Paths.SystemRootsOrder | src/lib.rs:18-30 | without `XDG_DATA_DIRS` the only system root is `/usr/share/icons`; otherwise one `icons` root per piece of the split, in order, and the pieces join back to the variable |
| Paths.UserThemeDirs | src/lib.rs:31-42 | two roots, the first a path whose last component is `icons`, the second one whose last component is `.icons` |
| Paths.XdgDataDirs | src/lib.rs:18-29 | at least one root, each a path whose last component is `icons` |
| Paths.CursorDirs | src/lib.rs:44-48 | at least three roots, each a path whose last component is `icons` or `.icons` |
| Paths.DefaultRoots | src/lib.rs:18-48 | with only `HOME=/home/u` the roots are `/home/u/.local/share/icons`, `/home/u/.icons`, `/usr/share/icons` |
| Paths.OverriddenRoots | src/lib.rs:18-48 | `XDG_HOME` beats `HOME` and `XDG_DATA_HOME` beats the default; a trailing `/` gets no second separator |
| Paths.TwoDataDirs | src/lib.rs:23-28 | `XDG_DATA_DIRS=/a:/b` gives the system roots `/a/icons`, `/b/icons` in that order |
| Paths.EmptyDataDirs | src/lib.rs:19-28 | a set but empty `XDG_DATA_DIRS` gives the one relative root `icons` |
| ThemeIndex.WhitespaceChars | src/lib.rs:158 | `char::is_whitespace` holds of exactly the 25 code points of Unicode's White_Space property |
| ThemeIndex.SeparatorChars | src/lib.rs:157-159 | a separator is exactly white space, `;` or `,` |
| ThemeIndex.TrimStart | src/lib.rs:167 | the result is a suffix, everything dropped is Unicode whitespace, and it does not start with whitespace |
| ThemeIndex.SkipSeparators | src/lib.rs:175 | the result is a suffix, everything dropped is a separator, and it does not start with a separator |
| ThemeIndex.TakeToken | src/lib.rs:176-177 | the longest prefix without separators: it has none, and it ends at the end or at a separator |
| ThemeIndex.Lines | src/lib.rs:162 | no line contains `\n` |
| ThemeIndex.LinesOfTerminatedLine | src/lib.rs:162 | a line ended by `\n` is cut off the front of the text |
| ThemeIndex.LinesOfCrLfLine | src/lib.rs:162 | a line ended by `\r\n` is cut off the front without its `\r` |
| ThemeIndex.LinesOfLastLine | src/lib.rs:162 | a last piece without `\n` is a line of its own, a trailing `\r` kept; empty text has no lines |
| ThemeIndex.LineInherits | src/lib.rs:163-181 | a value a line declares is non-empty and free of whitespace, `;` and `,` |
| ThemeIndex.AfterEquals | src/lib.rs:163-172 | a line that passes starts with `Inherits`, then only whitespace, then `=`, and the result is everything after that `=` |
| ThemeIndex.DeclarationParses | src/lib.rs:163-181 | `Inherits`, whitespace, `=`, separators, a token, then a separator or the end declares exactly that token |
| ThemeIndex.DeclarationShape | src/lib.rs:163-181 | conversely every declaring line has that shape around its value |
| ThemeIndex.EmptyDeclarationSkipped | src/lib.rs:175-181 | a declaration whose value part holds only separators declares nothing |
| ThemeIndex.FirstSomeIsFirst | src/lib.rs:162-184 | the value found is the first present one, and there is none only when all are absent |
| ThemeIndex.FirstDeclaration | src/lib.rs:162-184 | over any lines: the value found belongs to the first declaring line, and there is none iff no line declares one |
| ThemeIndex.ThemeInheritsIsFirstDeclaration | src/lib.rs:154-185 | the parent is the first line's declared value, none iff no line declares one, a non-empty token without separators |
| ThemeIndex.ThemeInherits | src/lib.rs:154-185 | an unreadable file declares nothing, and a declared parent is a non-empty token without separators |
| CursorIcons.NearestIndex | src/lib.rs:218-221 | the index of an image at least distance from the requested size, strictly nearer than every earlier image |
| CursorIcons.WithSize | src/lib.rs:224-227 | only images of the size are kept, and every image of that size is kept |
| CursorIcons.WithSizeConcat | src/lib.rs:224-227 | the filter keeps order: filtering a concatenation concatenates the filtered parts |
| CursorIcons.WithSizeCounts | src/lib.rs:224-227 | every image of the size is kept as many times as it occurs, and no other image |
| CursorIcons.XFrames | src/lib.rs:211-230 | `None` iff the file is unreadable, undecodable or empty; otherwise a non-empty sequence |
| CursorIcons.XFramesNearest | src/lib.rs:211-230 | the frames are exactly the images, with multiplicity and in order, whose size is that of the first nearest image |
| CursorIcons.ExampleNearestSize | src/lib.rs:218-227 | sizes 24, 32, 48 with 30 requested give the 32 frame |
| CursorIcons.ExampleExactSize | src/lib.rs:218-227 | sizes 24, 32, 48 with 48 requested give the 48 frame |
| CursorIcons.ExampleTieGoesToFirst | src/lib.rs:218-222 | at equal distance the image the decoder returns first wins |
| CursorIcons.SvgFrames | src/lib.rs:196-210 | `None` iff the metadata is unreadable or empty; otherwise one rendered image per record, in order |
| CursorIcons.Frames | src/lib.rs:194-232 | never a present but empty result; each format's `None` cases as above; an X icon yields exactly `XFrames` (the nearest-size frames of `XFramesNearest`) and an SVG icon exactly `SvgFrames` (one render per record, in order) |
| Scanner.MakeIcon | src/lib.rs:102-108 | the icon carries the entry path and is SVG exactly for the SVG constructor |
| Scanner.BareFileNames | src/lib.rs:134 | `IsBareFileName`, the `file_name() == Some(target)` test: a sibling name passes; a target with a directory part, a trailing `/`, `..` or nothing fails |
| Scanner.Regulars | src/lib.rs:117-122 | exactly the non-link entries, all of them non-links |
| Scanner.Symlinks | src/lib.rs:117-122 | exactly the link entries, all of them links |
| Scanner.FiltersKeepOrder | src/lib.rs:117-122 | both filters keep listing order: filtering a concatenation concatenates the filtered parts |
| Scanner.ProcessingOrderIsPermutation | src/lib.rs:115-122 | the processing order is a permutation of the listing |
| Scanner.ProcessingOrderLinksLast | src/lib.rs:115-122 | in the processing order no link comes before a non-link |
| Scanner.ScanFrom | src/lib.rs:122-143 | the loop always finishes, and it panics only on a link target that is not a bare file name |
| Scanner.Step | src/lib.rs:124-142 | one turn never runs out, panics exactly on an uncached link whose target is not a bare file name, and otherwise keeps every shape and icon and adds at most the entry's own name |
| Scanner.Scan | src/lib.rs:110-144 | `ReadDirFailed` exactly when the directory cannot be listed; the only other panic is the bare-name assert; never out of fuel |
| Scanner.StepCases | src/lib.rs:123-142 | one turn: a cached name is skipped, a non-link gets a fresh icon, a bad link panics, a link is aliased iff its target is cached |
| Scanner.DiscoverCursors | src/lib.rs:110-144 | an unlistable directory panics; otherwise the result is the loop over the processing order |
| Scanner.ProcessEntries | src/lib.rs:122-143 | the imperative loop equals the specification fold `ScanFrom` |
| Scanner.ProcessEntry | src/lib.rs:125-142 | one turn of the loop computes the specification step `Step`: a cached name is skipped, a bad link panics, a link to a cached target is aliased, a non-link gets a fresh icon |
| Scanner.ScanFromExtends | src/lib.rs:122-143 | first writer wins: no cached shape changes handle or disappears, no icon is dropped, new keys are entry names |
| Scanner.ScanFromAddsRegulars | src/lib.rs:139-142 | every non-link entry is a key afterwards |
| Scanner.ScanFromNewShapes | src/lib.rs:124-143 | each added shape is a non-link entry with a fresh icon at its path, or a link that was reached with its target already a shape and shares the target's handle |
| Scanner.ScanFromLinksToCached | src/lib.rs:126-138 | a link whose target is a shape when the scan starts is added and shares the target's handle, when no other entry has its name |
| Scanner.ScanFromLinkAt | src/lib.rs:124-143 | both ways, for an uncached link no other entry names: it shares its target's handle when the target is a shape by the time it is reached, and is absent from the result otherwise (it is never retried) |
| Scanner.ScanLinkRule | src/lib.rs:117-143 | over a listing, in processing order: such a link is a shape afterwards iff its target was a shape when it was reached, and then it shares the target's handle |
| Scanner.ExampleLinkToLaterLink | src/lib.rs:117-143 | with links `a -> b`, `b -> c` and a file `c`, `b` aliases `c` but `a` is left out |
| Scanner.ScanFromAppend | src/lib.rs:122 | scanning a chained sequence scans the second part from the result of the first |
| Scanner.ScanLinkSharesTarget | src/lib.rs:115-143 | a link to a cached shape, or to a non-link sibling, is added and shares its target's handle |
| Scanner.ScanEffect | src/lib.rs:110-144 | a finished scan extends the cache, adds every non-link, adds only listed names, and each addition is a fresh icon for a non-link or a link reached with its target cached |
| Scanner.ScanRegularIcon | src/lib.rs:139-142 | an uncached non-link entry gets a fresh icon at its own path with the scan's constructor, whatever links follow |
| Scanner.ScanKeepsCache | src/lib.rs:110-144 | a finished scan keeps every handle valid and extends the cache |
| Scanner.ScanFromIconFormat | src/lib.rs:139-142 | every icon a scan adds has the scan's format |
| Scanner.ScanFromPanics | src/lib.rs:130-134 | a panic implies a link in the entries whose target is not a bare file name |
| Scanner.ScanPanics | src/lib.rs:116-134 | `ReadDirFailed` iff the directory cannot be listed; a link panic names a bad link; with only bare targets a listed directory never panics |
| Theme.VisitRoot | src/lib.rs:75-85 | a finished visit keeps handles valid, extends the cache, and never runs out of fuel |
| Theme.VisitRootEffect | src/lib.rs:77-85 | SVG icons only when `cursors_scalable` exists, X icons only when it does not, nothing without both; only names the scanned directory lists are added; each uncached non-link shape it lists gets the icon at its path |
| Theme.PassFrom | src/lib.rs:74-94 | a finished pass over the roots keeps handles valid and extends the cache |
| Theme.Declares | src/lib.rs:87-92 | a declared parent comes from an existing theme directory and is a non-empty token without separators |
| Theme.DeclaredParent | src/lib.rs:87-92 | the parent pushed is a non-empty token without separators |
| Theme.DeclaredParentIsFirst | src/lib.rs:87-93 | the parent pushed is declared under some root, and no earlier root declares one; none iff no root declares one |
| Theme.DeclaredParentFirstSome | src/lib.rs:74-93 | the parent pushed is the first declaration met when the roots are taken in order |
| Theme.DiscoverSpec | src/lib.rs:68-100 | a finished discovery keeps handles valid and never removes or changes a cached shape |
| Theme.Discover | src/lib.rs:68-100 | the stack loop with at most one pending theme equals the chain-following specification, whenever that finishes or panics within the budget |
| Theme.VisitTheme | src/lib.rs:71-98 | one turn of the stack loop: popping a theme, passing over the roots and pushing the parent found leaves discovery with the same outcome, one theme shorter |
| Theme.VisitRoots | src/lib.rs:72-94 | the loop over the roots equals the specification pass `PassFrom`, and the parent it keeps is the one `DeclaredParent` names |
| Theme.VisitRootAt | src/lib.rs:75-93 | one root: the rest of the pass and of the search for a parent go on from the next root exactly as they would have from this one |
| Theme.ScanThemeDir | src/lib.rs:77-85 | the directory of a theme under one root is scanned exactly as the specification visit `VisitRoot` says |
| Theme.ChainEndsThenFinishes | src/lib.rs:70-99 | with enough fuel for the chain discovery never runs out; when it finishes the chain ended within the fuel |
| Theme.CycleNeverEnds | src/lib.rs:87-99 | on any inheritance cycle, a theme that is its own `p`-th ancestor for some `p > 0`, there is an ancestor at every depth |
| Theme.MutualCycle | src/lib.rs:87-99 | two themes that inherit from each other, or one that inherits from itself, are each their own second ancestor |
| Theme.CycleNeverFinishes | src/lib.rs:70-99 | on any inheritance cycle discovery never finishes, whatever the budget |
| Theme.FirstRootWins | src/lib.rs:74-94 | first writer wins across roots: an uncached shape takes the icon of the earliest root whose scanned directory names it, when a non-link there, whatever later roots and parents hold |
| Theme.PassEarliestRootWins | src/lib.rs:74-94 | the same over one pass of the loop over the roots |
| Theme.PassAddsThemeShapes | src/lib.rs:74-94 | a pass caches every non-link shape the theme's scanned directories list under all roots |
| Theme.DiscoverAddsChainShapes | src/lib.rs:70-99 | discovery caches every non-link shape listed by every theme on the inheritance chain |
| Theme.PassKeysBounded | src/lib.rs:74-94 | a pass over the roots adds only names listed by the theme's scanned icon directories |
| Theme.DiscoverKeysBounded | src/lib.rs:68-100 | every shape discovery adds is listed by the scanned icon directory of some theme on the inheritance chain |
| Theme.DiscoverFindsChain | src/lib.rs:68-100 | from an empty cache, nothing is found when no theme on the chain lists any name, and something is found when one lists a non-link shape |
| Theme.CursorTheme.Icon | src/lib.rs:146-148 | an icon exactly for the cached shapes, namely the one its handle names |
| Theme.LoadSpec | src/lib.rs:56-66 | `HomeNotSet` exactly when no home directory is set; a loaded theme has at least one shape |
| Theme.Load | src/lib.rs:56-66 | a panic without a home directory; otherwise discovery from an empty cache, no theme iff nothing was found; never out of fuel |
| Theme.LoadedIcons | src/lib.rs:56-66 | no theme iff the discovered cache is empty; a loaded theme answers `icon` exactly for the discovered shapes |
| Theme.AbsentThemeNotFound | src/lib.rs:56-66 | a theme with no directory under any root loads as no theme |
| Theme.LoadFollowsChain | src/lib.rs:56-100 | `load` gives no theme when no theme on the inheritance chain lists any name, and a theme when one lists a non-link shape |

## Left out

- File reading, `read_dir`, `is_dir`, `read_link` and the environment are arguments.
  - A theme directory exists when its path is a key of the file-system map.
  - An icon directory is `Missing`, `Unreadable` or `Listed`.
  - `index.theme` is its text, or `None` when it cannot be read.
  - The environment is a record of `XDG_HOME`, `HOME`, `XDG_DATA_HOME` and `XDG_DATA_DIRS`.
- Directory entries that fail to read or whose `metadata()` fails are taken as already dropped (src/lib.rs:120-121).
- A link whose `read_link` fails (the `unwrap` at src/lib.rs:132) is not modelled: every link entry carries its target.
- File names are strings, not `OsString`: names that are not valid Unicode are not modelled.
- `LazyLock` memoisation of `CURSOR_DIRS` is not modelled. The roots are computed from the environment given to `Load`, which gives the same roots as long as the environment does not change.
- Paths.CursorDirs: requires a home directory. The `expect("$HOME is not set")` panic is modelled in `Theme.Load` as `Panicked(HomeNotSet)`.
- Theme.Load and Theme.Discover: require that discovery finishes or panics within a ghost `depth` of themes, because on a cycle without a panic the source never returns. That behaviour is proved of the specification, for a cycle of any length, by `Theme.CycleNeverFinishes`, and `Theme.ChainEndsThenFinishes` shows that a chain ending within `depth` meets the requirement.
- A panic ends `discover` with the panic reason. The partly filled cache, which Rust unwinds away, is not part of the result.
- `Image::render_svg` is the `render` argument of `CursorIcons.SvgFrames`. This leaves out the SVG parsing, scaling, rasterising and hotspot arithmetic, and its `unwrap` panics.
- The `metadata.json` deserialisation is left out. It is the `metadata` argument, and `Meta`'s `f32` fields are dropped.
- The xcursor parser is left out. Its result is the `decoded` argument.
- `Image::from_xcursor` is the identity on `Image`.
- Integer widths are not modelled: sizes are `nat`. `u32::abs_diff` cannot overflow, so nothing is lost.
- Reference counting of `Arc` is not modelled, only which shapes share an icon.
- The `Debug` implementations and `examples/breeze.rs` are not part of this model.
