/** Loading a cursor theme: `CursorTheme::load`, `CursorTheme::discover` and
    `CursorTheme::icon` in src/lib.rs. The file system is the map of theme directories
    that exist; each holds the listings of its two icon directories and the text of its
    `index.theme`. */
module Theme {
  import opened Wrappers
  import opened Paths
  import opened ThemeIndex
  import opened CursorIcons
  import opened Scanner

  /** What the library reads in one theme directory `<root>/<name>`: the listing of
      `cursors_scalable`, the listing of `cursors`, and `index.theme` when it can be read. */
  datatype ThemeDir = ThemeDir(scalable: Listing, cursors: Listing, index: Option<string>)

  /** The theme directories that exist (`is_dir`), by path. */
  type FileSystem = map<Path, ThemeDir>

  const SCALABLE: string := "cursors_scalable"
  const CURSORS: string := "cursors"

  /** A shape cache whose handles all name an icon. */
  type ValidCache = c: Cache | c.Valid() witness Cache(map[], [])

  /** The body of the loop over the roots for one existing theme directory at `path`: the
      SVG directory when it exists, else the X cursor directory when it exists. */
  function VisitRoot(c: Cache, path: Path, dir: ThemeDir): (r: Outcome<Cache>)
    requires c.Valid()
    ensures r.Done? ==> r.value.Valid() && Extends(c, r.value)
    ensures !r.OutOfFuel?
    ensures r.Panicked? ==> r.reason != HomeNotSet
  {
    if !dir.scalable.Missing? then
      ScanKeepsCache(c, Join(path, SCALABLE), SvgFormat, dir.scalable);
      Scan(c, Join(path, SCALABLE), SvgFormat, dir.scalable)
    else if !dir.cursors.Missing? then
      ScanKeepsCache(c, Join(path, CURSORS), XFormat, dir.cursors);
      Scan(c, Join(path, CURSORS), XFormat, dir.cursors)
    else
      Done(c)
  }

  /** One pass of the loop over the roots for the theme `name`. */
  function PassFrom(c: Cache, name: string, roots: seq<Path>, fs: FileSystem): (r: Outcome<Cache>)
    requires c.Valid()
    ensures r.Done? ==> r.value.Valid() && Extends(c, r.value)
    ensures !r.OutOfFuel?
    ensures r.Panicked? ==> r.reason != HomeNotSet
    decreases |roots|
  {
    if roots == [] then Done(c)
    else
      var path := Join(roots[0], name);
      if path !in fs then PassFrom(c, name, roots[1..], fs)
      else
        var visited := VisitRoot(c, path, fs[path]);
        if visited.Done? then PassFrom(visited.value, name, roots[1..], fs) else visited
  }

  /** The parent the theme directory of `name` under `root` declares, if it exists. */
  function Declares(name: string, root: Path, fs: FileSystem): (r: Option<string>)
    ensures r.Some? ==> Join(root, name) in fs && r.value != [] && NoSeparator(r.value)
  {
    var path := Join(root, name);
    if path in fs then ThemeInherits(fs[path].index) else None
  }

  /** The parent `discover` pushes for `name`: the one declared under the first root that
      declares any. */
  function DeclaredParent(name: string, roots: seq<Path>, fs: FileSystem): (r: Option<string>)
    ensures r.Some? ==> r.value != [] && NoSeparator(r.value)
    decreases |roots|
  {
    if roots == [] then None
    else match Declares(name, roots[0], fs)
      case Some(parent) => Some(parent)
      case None => DeclaredParent(name, roots[1..], fs)
  }

  /** The `k`-th theme up the inheritance chain from `name`, if the chain is that long. */
  function Ancestor(name: string, roots: seq<Path>, fs: FileSystem, k: nat): Option<string>
    decreases k
  {
    if k == 0 then Some(name)
    else match DeclaredParent(name, roots, fs)
      case None => None
      case Some(parent) => Ancestor(parent, roots, fs, k - 1)
  }

  /** `discover` with a budget of `fuel` themes: each theme of the chain in turn, stopping
      at a panic. */
  function DiscoverSpec(c: Cache, name: string, roots: seq<Path>, fs: FileSystem, fuel: nat): (r: Outcome<Cache>)
    requires c.Valid()
    ensures r.Done? ==> r.value.Valid() && Extends(c, r.value)
    ensures r.Panicked? ==> r.reason != HomeNotSet
    decreases fuel
  {
    if fuel == 0 then OutOfFuel
    else
      var pass := PassFrom(c, name, roots, fs);
      if !pass.Done? then pass
      else match DeclaredParent(name, roots, fs)
        case None => pass
        case Some(parent) => DiscoverSpec(pass.value, parent, roots, fs, fuel - 1)
  }

  /** The pass from root `i` when the theme has no directory under it. */
  lemma PassFromSkip(c: Cache, n: string, roots: seq<Path>, fs: FileSystem, i: nat)
    requires c.Valid() && i < |roots| && Join(roots[i], n) !in fs
    ensures PassFrom(c, n, roots[i..], fs) == PassFrom(c, n, roots[i + 1..], fs)
  {
    assert roots[i..][0] == roots[i] && roots[i..][1..] == roots[i + 1..];
  }

  /** The pass from root `i` when the theme has a directory under it, whose visit gives `v`. */
  lemma PassFromVisit(c: Cache, n: string, roots: seq<Path>, fs: FileSystem, i: nat, v: Outcome<Cache>)
    requires c.Valid() && i < |roots| && Join(roots[i], n) in fs
    requires v == VisitRoot(c, Join(roots[i], n), fs[Join(roots[i], n)])
    ensures PassFrom(c, n, roots[i..], fs) == if v.Done? then PassFrom(v.value, n, roots[i + 1..], fs) else v
  {
    assert roots[i..][0] == roots[i] && roots[i..][1..] == roots[i + 1..];
  }

  /** The parent declared from root `i` on, when the theme has no directory under it. */
  lemma DeclaredParentSkip(n: string, roots: seq<Path>, fs: FileSystem, i: nat)
    requires i < |roots| && Join(roots[i], n) !in fs
    ensures DeclaredParent(n, roots[i..], fs) == DeclaredParent(n, roots[i + 1..], fs)
  {
    assert roots[i..][0] == roots[i] && roots[i..][1..] == roots[i + 1..];
  }

  /** The parent declared from root `i` on, when the theme has a directory under it whose
      index declares `d`. */
  lemma DeclaredParentVisit(n: string, roots: seq<Path>, fs: FileSystem, i: nat, d: Option<string>)
    requires i < |roots| && Join(roots[i], n) in fs
    requires d == ThemeInherits(fs[Join(roots[i], n)].index)
    ensures DeclaredParent(n, roots[i..], fs) == if d.Some? then d else DeclaredParent(n, roots[i + 1..], fs)
  {
    assert roots[i..][0] == roots[i] && roots[i..][1..] == roots[i + 1..];
  }

  /** One turn of the stack loop, given the pass `out` over the roots and the parent it
      found: discovery that does not run out of fuel has fuel left for this turn. */
  lemma DiscoverTurn(c: Cache, n: string, roots: seq<Path>, fs: FileSystem, fuel: nat,
                     out: Outcome<Cache>, inherits: Option<string>)
    requires c.Valid() && !DiscoverSpec(c, n, roots, fs, fuel).OutOfFuel?
    requires out == PassFrom(c, n, roots, fs)
    requires out.Done? ==> inherits == DeclaredParent(n, roots, fs)
    ensures fuel > 0
    ensures DiscoverSpec(c, n, roots, fs, fuel) ==
      if out.Done? && inherits.Some? then DiscoverSpec(out.value, inherits.value, roots, fs, fuel - 1) else out
  {
  }

  /** `discover`: a stack of theme names, holding at most one; for each theme the loop
      over the roots, and its first declared parent is pushed. Discovery must end, by
      finishing or by a panic, within `depth` themes. */
  method Discover(name: string, roots: seq<Path>, fs: FileSystem, cache: Cache, ghost depth: nat)
    returns (r: Outcome<Cache>)
    requires cache.Valid()
    requires !DiscoverSpec(cache, name, roots, fs, depth).OutOfFuel?
    ensures r == DiscoverSpec(cache, name, roots, fs, depth)
  {
    ghost var goal := DiscoverSpec(cache, name, roots, fs, depth);
    var stack := [name];
    var c := cache;
    ghost var fuel := depth;
    while stack != []
      invariant c.Valid() && |stack| <= 1 && Remaining(c, stack, roots, fs, fuel) == goal
      decreases fuel
    {
      var out;
      out, stack := VisitTheme(stack, roots, fs, c, fuel);
      if !out.Done? {
        return out;
      }
      c, fuel := out.value, fuel - 1;
    }
    return Done(c);
  }

  /** What discovery yields from the cache `c` with the themes on `stack` still to visit. */
  ghost function Remaining(c: Cache, stack: seq<string>, roots: seq<Path>, fs: FileSystem, fuel: nat): Outcome<Cache>
    requires c.Valid() && |stack| <= 1
  {
    if stack == [] then Done(c) else DiscoverSpec(c, stack[0], roots, fs, fuel)
  }

  /** One turn of the stack loop: the theme on top is popped, the loop over the roots
      yields the cache, and the parent found is pushed; discovery then goes on from there
      with one theme less. */
  method VisitTheme(stack: seq<string>, roots: seq<Path>, fs: FileSystem, c: Cache, ghost fuel: nat)
    returns (out: Outcome<Cache>, stack': seq<string>)
    requires c.Valid() && |stack| == 1 && !Remaining(c, stack, roots, fs, fuel).OutOfFuel?
    ensures fuel > 0 && |stack'| <= 1 && (out.Done? ==> out.value.Valid())
    ensures Remaining(c, stack, roots, fs, fuel) ==
      if out.Done? then Remaining(out.value, stack', roots, fs, fuel - 1) else out
  {
    var n := stack[|stack| - 1];
    stack' := stack[..|stack| - 1];
    var inherits;
    out, inherits := VisitRoots(n, roots, fs, c);
    DiscoverTurn(c, n, roots, fs, fuel, out, inherits);
    if inherits.Some? {
      stack' := stack' + [inherits.value];
    }
  }

  /** The loop over the roots for the theme `n`: each existing theme directory has its
      SVG or else its X cursor directory scanned, and the first parent declared is kept. */
  method VisitRoots(n: string, roots: seq<Path>, fs: FileSystem, cache: Cache)
    returns (r: Outcome<Cache>, inherits: Option<string>)
    requires cache.Valid()
    ensures r == PassFrom(cache, n, roots, fs)
    ensures r.Done? ==> inherits == DeclaredParent(n, roots, fs)
  {
    var c := cache;
    inherits := None;
    var i := 0;
    while i < |roots|
      invariant 0 <= i <= |roots| && c.Valid()
      invariant PassFrom(c, n, roots[i..], fs) == PassFrom(cache, n, roots, fs)
      invariant DeclaredParent(n, roots, fs) ==
        if inherits.Some? then inherits else DeclaredParent(n, roots[i..], fs)
    {
      var out;
      out, inherits := VisitRootAt(n, roots, fs, i, c, inherits);
      if !out.Done? {
        return out, inherits;
      }
      c := out.value;
      i := i + 1;
    }
    assert roots[i..] == [];
    return Done(c), inherits;
  }

  /** One turn of the loop over the roots: the theme directory under `roots[i]`, if there is
      one, is scanned, and its index is read while no parent is known yet. */
  method VisitRootAt(n: string, roots: seq<Path>, fs: FileSystem, i: nat, c: Cache, inherits: Option<string>)
    returns (out: Outcome<Cache>, inherits': Option<string>)
    requires c.Valid() && i < |roots|
    ensures out.Done? ==> out.value.Valid()
    ensures PassFrom(c, n, roots[i..], fs) == if out.Done? then PassFrom(out.value, n, roots[i + 1..], fs) else out
    ensures (if inherits.Some? then inherits else DeclaredParent(n, roots[i..], fs)) ==
      if inherits'.Some? then inherits' else DeclaredParent(n, roots[i + 1..], fs)
  {
    inherits' := inherits;
    var path := Join(roots[i], n);
    if path in fs {
      var dir := fs[path];
      out := ScanThemeDir(c, path, dir);
      PassFromVisit(c, n, roots, fs, i, out);
      DeclaredParentVisit(n, roots, fs, i, ThemeInherits(dir.index));
      if inherits.None? {
        inherits' := ThemeInherits(dir.index);
      }
    } else {
      out := Done(c);
      PassFromSkip(c, n, roots, fs, i);
      DeclaredParentSkip(n, roots, fs, i);
    }
  }

  /** The body of the loop over the roots for an existing theme directory: scan
      `cursors_scalable` when it exists, else `cursors` when it exists. */
  method ScanThemeDir(c: Cache, path: Path, dir: ThemeDir) returns (r: Outcome<Cache>)
    requires c.Valid()
    ensures r == VisitRoot(c, path, dir)
  {
    if !dir.scalable.Missing? {
      r := DiscoverCursors(c, Join(path, SCALABLE), SvgFormat, dir.scalable);
    } else if !dir.cursors.Missing? {
      r := DiscoverCursors(c, Join(path, CURSORS), XFormat, dir.cursors);
    } else {
      r := Done(c);
    }
  }

  /** A loaded theme: its shape cache. */
  datatype CursorTheme = CursorTheme(cache: ValidCache) {
    /** `icon`: the icon cached for the shape `name`, if any. */
    function Icon(name: string): (r: Option<CursorIcon>)
      ensures r.Some? <==> name in cache.shapes
      ensures r.Some? ==> r.value == cache.icons[cache.shapes[name]]
    {
      if name in cache.shapes then Some(cache.icons[cache.shapes[name]]) else None
    }
  }

  /** `load` with a budget of `fuel` themes: a panic when no home directory is set, else
      `discover` from an empty cache, and no theme when nothing was found. */
  function LoadSpec(name: string, env: Env, fs: FileSystem, fuel: nat): (r: Outcome<Option<CursorTheme>>)
    ensures r == Panicked(HomeNotSet) <==> !HomeSet(env)
    ensures r.Done? && r.value.Some? ==> r.value.value.cache.shapes != map[]
  {
    if !HomeSet(env) then Panicked(HomeNotSet)
    else match DiscoverSpec(EmptyCache, name, CursorDirs(env), fs, fuel)
      case Done(c) => Done(if c.shapes == map[] then None else Some(CursorTheme(c)))
      case Panicked(reason) => Panicked(reason)
      case OutOfFuel => OutOfFuel
  }

  /** `load`. Discovery must end, by finishing or by a panic, within `depth` themes: on a
      cycle without a panic the source never returns. */
  method Load(name: string, env: Env, fs: FileSystem, ghost depth: nat) returns (r: Outcome<Option<CursorTheme>>)
    requires HomeSet(env) ==> !DiscoverSpec(EmptyCache, name, CursorDirs(env), fs, depth).OutOfFuel?
    ensures r == LoadSpec(name, env, fs, depth)
    ensures !r.OutOfFuel?
  {
    if !HomeSet(env) {
      return Panicked(HomeNotSet);
    }
    var roots := CursorDirs(env);
    var out := Discover(name, roots, fs, EmptyCache, depth);
    if out.Done? {
      if out.value.shapes == map[] {
        return Done(None);
      }
      return Done(Some(CursorTheme(out.value)));
    }
    return Panicked(out.reason);
  }

  /** A theme is loaded exactly when `discover` finds some shape, and its `icon` answers
      exactly for the shapes found, with their cached icons. */
  lemma LoadedIcons(name: string, env: Env, fs: FileSystem, fuel: nat)
    requires HomeSet(env) && DiscoverSpec(EmptyCache, name, CursorDirs(env), fs, fuel).Done?
    ensures var c := DiscoverSpec(EmptyCache, name, CursorDirs(env), fs, fuel).value;
      && (LoadSpec(name, env, fs, fuel) == Done(None) <==> c.shapes == map[])
      && (LoadSpec(name, env, fs, fuel).Done? && LoadSpec(name, env, fs, fuel).value.Some? ==>
            var theme := LoadSpec(name, env, fs, fuel).value.value;
            forall shape :: theme.Icon(shape) ==
              (if shape in c.shapes then Some(c.icons[c.shapes[shape]]) else None))
  {
  }

  /** The parent `discover` follows is declared under some root, and under no earlier
      root is any parent declared. */
  lemma DeclaredParentIsFirst(name: string, roots: seq<Path>, fs: FileSystem)
    ensures DeclaredParent(name, roots, fs).None? <==>
      forall k :: 0 <= k < |roots| ==> Declares(name, roots[k], fs).None?
    ensures DeclaredParent(name, roots, fs).Some? ==>
      exists k :: 0 <= k < |roots| && Declares(name, roots[k], fs) == DeclaredParent(name, roots, fs)
        && forall j :: 0 <= j < k ==> Declares(name, roots[j], fs).None?
  {
    var ds := RootDeclarations(name, roots, fs);
    DeclaredParentFirstSome(name, roots, fs);
    FirstSomeIsFirst(ds);
  }

  /** What each root declares, root by root. */
  ghost function RootDeclarations(name: string, roots: seq<Path>, fs: FileSystem): (ds: seq<Option<string>>)
    ensures |ds| == |roots|
    ensures forall k :: 0 <= k < |ds| ==> ds[k] == Declares(name, roots[k], fs)
  {
    seq(|roots|, k requires 0 <= k < |roots| => Declares(name, roots[k], fs))
  }

  /** `DeclaredParent` is the first of the roots' declarations. */
  lemma {:induction false} DeclaredParentFirstSome(name: string, roots: seq<Path>, fs: FileSystem)
    ensures DeclaredParent(name, roots, fs) == FirstSome(RootDeclarations(name, roots, fs))
    decreases |roots|
  {
    if roots != [] {
      DeclaredParentFirstSome(name, roots[1..], fs);
      assert RootDeclarations(name, roots, fs)[1..] == RootDeclarations(name, roots[1..], fs);
    }
  }

  /** `discover` with enough fuel for the whole chain never runs out of it; and when it
      finishes, the chain ended within the fuel. */
  lemma {:induction false} ChainEndsThenFinishes(c: Cache, name: string, roots: seq<Path>, fs: FileSystem, fuel: nat)
    requires c.Valid()
    ensures Ancestor(name, roots, fs, fuel).None? ==> !DiscoverSpec(c, name, roots, fs, fuel).OutOfFuel?
    ensures DiscoverSpec(c, name, roots, fs, fuel).Done? ==> Ancestor(name, roots, fs, fuel).None?
    decreases fuel
  {
    if fuel > 0 {
      match PassFrom(c, name, roots, fs)
      case Done(c1) => {
        match DeclaredParent(name, roots, fs)
        case None =>
        case Some(parent) => ChainEndsThenFinishes(c1, parent, roots, fs, fuel - 1);
      }
      case _ =>
    }
  }

  /** The `k`-th step up from `name` along any parent relation. */
  ghost function Up(parent: string -> Option<string>, name: string, k: nat): Option<string>
    decreases k
  {
    if k == 0 then Some(name)
    else match parent(name)
      case None => None
      case Some(p) => Up(parent, p, k - 1)
  }

  /** `Ancestor` steps up along `DeclaredParent`. */
  lemma {:induction false} AncestorIsUp(name: string, roots: seq<Path>, fs: FileSystem, k: nat)
    ensures Ancestor(name, roots, fs, k) == Up(n => DeclaredParent(n, roots, fs), name, k)
    decreases k
  {
    if k > 0 {
      match DeclaredParent(name, roots, fs)
      case None =>
      case Some(parent) => AncestorIsUp(parent, roots, fs, k - 1);
    }
  }

  /** Going up `i + j` steps is going up `i`, then `j` more. */
  lemma {:induction false} UpAdd(parent: string -> Option<string>, name: string, i: nat, j: nat)
    ensures Up(parent, name, i).None? ==> Up(parent, name, i + j).None?
    ensures Up(parent, name, i).Some? ==> Up(parent, name, i + j) == Up(parent, Up(parent, name, i).value, j)
    decreases i
  {
    if i > 0 {
      match parent(name)
      case None =>
      case Some(p) => UpAdd(parent, p, i - 1, j);
    }
  }

  /** From a name that is its own `p`-th step up, there is a step up at every depth. */
  lemma {:induction false} UpCycle(parent: string -> Option<string>, a: string, p: nat, k: nat)
    requires p > 0 && Up(parent, a, p) == Some(a)
    ensures Up(parent, a, k).Some?
    decreases k
  {
    if k < p {
      UpAdd(parent, a, k, p - k);
    } else {
      UpCycle(parent, a, p, k - p);
      UpAdd(parent, a, p, k - p);
    }
  }

  /** On an inheritance cycle, a theme that is its own `p`-th ancestor, the chain never
      ends. */
  lemma CycleNeverEnds(a: string, roots: seq<Path>, fs: FileSystem, p: nat, k: nat)
    requires p > 0 && Ancestor(a, roots, fs, p) == Some(a)
    ensures Ancestor(a, roots, fs, k).Some?
  {
    AncestorIsUp(a, roots, fs, p);
    AncestorIsUp(a, roots, fs, k);
    UpCycle(n => DeclaredParent(n, roots, fs), a, p, k);
  }

  /** Two themes that inherit from each other, or one that inherits from itself, form
      such a cycle. */
  lemma MutualCycle(a: string, b: string, roots: seq<Path>, fs: FileSystem)
    requires DeclaredParent(a, roots, fs) == Some(b) && DeclaredParent(b, roots, fs) == Some(a)
    ensures Ancestor(a, roots, fs, 2) == Some(a) && Ancestor(b, roots, fs, 2) == Some(b)
  {
    assert Ancestor(a, roots, fs, 1) == Some(b) && Ancestor(b, roots, fs, 1) == Some(a);
  }

  /** So `discover` never finishes on a cycle, whatever the budget: the source loops for
      ever unless a scan panics. */
  lemma CycleNeverFinishes(c: Cache, a: string, roots: seq<Path>, fs: FileSystem, p: nat, fuel: nat)
    requires c.Valid()
    requires p > 0 && Ancestor(a, roots, fs, p) == Some(a)
    ensures !DiscoverSpec(c, a, roots, fs, fuel).Done?
  {
    CycleNeverEnds(a, roots, fs, p, fuel);
    ChainEndsThenFinishes(c, a, roots, fs, fuel);
  }

  /** Whether the icon directory `discover` scans in `dir` lists a non-link entry `shape`:
      `cursors_scalable` when it exists, else `cursors`. */
  ghost predicate ListsRegular(dir: ThemeDir, shape: string) {
    if !dir.scalable.Missing? then dir.scalable.Listed? && Regular(shape) in dir.scalable.entries
    else dir.cursors.Listed? && Regular(shape) in dir.cursors.entries
  }

  /** The icon `discover` builds for the entry `shape` of the theme directory at `path`. */
  function IconAt(path: Path, dir: ThemeDir, shape: string): CursorIcon {
    if !dir.scalable.Missing? then Svg(Join(Join(path, SCALABLE), shape))
    else X(Join(Join(path, CURSORS), shape))
  }

  /** The names the icon directory `discover` scans in `dir` lists. */
  ghost function ScannedNames(dir: ThemeDir): set<string> {
    if !dir.scalable.Missing? then NamesOf(dir.scalable) else NamesOf(dir.cursors)
  }

  /** Visiting a theme directory adds SVG icons only when `cursors_scalable` exists and X
      cursor icons only when it does not; with neither directory nothing changes. It adds
      only names the scanned directory lists, and every non-link shape the directory lists
      that was not cached gets the icon at its own path. */
  lemma VisitRootEffect(c: Cache, path: Path, dir: ThemeDir, shape: string)
    requires c.Valid()
    requires VisitRoot(c, path, dir).Done?
    ensures var c' := VisitRoot(c, path, dir).value;
      && (forall h :: |c.icons| <= h < |c'.icons| ==>
            FormatOf(c'.icons[h]) == if !dir.scalable.Missing? then SvgFormat else XFormat)
      && (dir.scalable.Missing? && dir.cursors.Missing? ==> c' == c)
      && c'.shapes.Keys <= c.shapes.Keys + ScannedNames(dir)
      && (ListsRegular(dir, shape) && shape !in c.shapes ==>
            shape in c'.shapes && c'.icons[c'.shapes[shape]] == IconAt(path, dir, shape))
  {
    if !dir.scalable.Missing? {
      var es := dir.scalable.entries;
      ScanEffect(c, Join(path, SCALABLE), SvgFormat, dir.scalable);
      ScanFromIconFormat(c, Join(path, SCALABLE), SvgFormat, ProcessingOrder(es));
      if ListsRegular(dir, shape) && shape !in c.shapes {
        ScanRegularIcon(c, Join(path, SCALABLE), SvgFormat, es, shape);
      }
    } else if !dir.cursors.Missing? {
      var es := dir.cursors.entries;
      ScanEffect(c, Join(path, CURSORS), XFormat, dir.cursors);
      ScanFromIconFormat(c, Join(path, CURSORS), XFormat, ProcessingOrder(es));
      if ListsRegular(dir, shape) && shape !in c.shapes {
        ScanRegularIcon(c, Join(path, CURSORS), XFormat, es, shape);
      }
    }
  }

  /** No theme directory of `name` under `roots` scans a directory that names `shape`. */
  ghost predicate UnnamedUnder(name: string, roots: seq<Path>, fs: FileSystem, shape: string) {
    forall j :: 0 <= j < |roots| && Join(roots[j], name) in fs ==>
      shape !in ScannedNames(fs[Join(roots[j], name)])
  }

  /** Over one pass: the earliest root whose scanned directory names `shape` at all, when
      it lists `shape` as a non-link, gives `shape` its icon. */
  lemma {:induction false} PassEarliestRootWins(c: Cache, name: string, roots: seq<Path>, fs: FileSystem,
                                                k: nat, shape: string)
    requires c.Valid()
    requires PassFrom(c, name, roots, fs).Done?
    requires k < |roots| && Join(roots[k], name) in fs
    requires ListsRegular(fs[Join(roots[k], name)], shape) && shape !in c.shapes
    requires UnnamedUnder(name, roots[..k], fs, shape)
    ensures var c' := PassFrom(c, name, roots, fs).value;
      var path := Join(roots[k], name);
      shape in c'.shapes && c'.icons[c'.shapes[shape]] == IconAt(path, fs[path], shape)
    decreases k
  {
    if k == 0 {
      PassFirstRootWins(c, name, roots, fs, shape);
    } else {
      assert roots[1..][k - 1] == roots[k];
      UnnamedUnderTail(name, roots, fs, k, shape);
      PassSkipsRoot(c, name, roots, fs, shape);
      var path := Join(roots[0], name);
      var c1 := if path in fs then VisitRoot(c, path, fs[path]).value else c;
      PassEarliestRootWins(c1, name, roots[1..], fs, k - 1, shape);
    }
  }

  /** The first root, when its scanned directory lists `shape` as a non-link, gives it its icon. */
  lemma PassFirstRootWins(c: Cache, name: string, roots: seq<Path>, fs: FileSystem, shape: string)
    requires c.Valid()
    requires PassFrom(c, name, roots, fs).Done?
    requires roots != [] && Join(roots[0], name) in fs
    requires ListsRegular(fs[Join(roots[0], name)], shape) && shape !in c.shapes
    ensures var c' := PassFrom(c, name, roots, fs).value;
      var path := Join(roots[0], name);
      shape in c'.shapes && c'.icons[c'.shapes[shape]] == IconAt(path, fs[path], shape)
  {
    var path := Join(roots[0], name);
    var m := VisitRoot(c, path, fs[path]).value;
    VisitRootEffect(c, path, fs[path], shape);
    assert PassFrom(c, name, roots, fs) == PassFrom(m, name, roots[1..], fs);
  }

  /** A first root whose scanned directory does not name `shape` leaves it uncached for the
      rest of the pass. */
  lemma PassSkipsRoot(c: Cache, name: string, roots: seq<Path>, fs: FileSystem, shape: string)
    requires c.Valid()
    requires PassFrom(c, name, roots, fs).Done?
    requires roots != [] && shape !in c.shapes
    requires Join(roots[0], name) in fs ==> shape !in ScannedNames(fs[Join(roots[0], name)])
    ensures var path := Join(roots[0], name);
      var c1 := if path in fs then VisitRoot(c, path, fs[path]).value else c;
      && c1.Valid() && shape !in c1.shapes
      && PassFrom(c, name, roots, fs) == PassFrom(c1, name, roots[1..], fs)
  {
    var path := Join(roots[0], name);
    if path in fs {
      VisitRootEffect(c, path, fs[path], shape);
    }
  }

  /** `UnnamedUnder` over the first `k` roots holds of the first root and of the next `k - 1`. */
  lemma UnnamedUnderTail(name: string, roots: seq<Path>, fs: FileSystem, k: nat, shape: string)
    requires 0 < k <= |roots|
    requires UnnamedUnder(name, roots[..k], fs, shape)
    ensures Join(roots[0], name) in fs ==> shape !in ScannedNames(fs[Join(roots[0], name)])
    ensures UnnamedUnder(name, roots[1..][..k - 1], fs, shape)
  {
    assert roots[..k][0] == roots[0];
    assert roots[1..][..k - 1] == roots[..k][1..];
  }

  /** First writer wins across roots: a shape that was not cached takes the icon of the
      earliest root whose scanned directory names it, when it is a non-link there, whatever
      later roots and ancestor themes hold. */
  lemma FirstRootWins(c: Cache, name: string, roots: seq<Path>, fs: FileSystem, fuel: nat,
                      k: nat, shape: string)
    requires c.Valid()
    requires DiscoverSpec(c, name, roots, fs, fuel).Done?
    requires k < |roots| && Join(roots[k], name) in fs
    requires ListsRegular(fs[Join(roots[k], name)], shape) && shape !in c.shapes
    requires UnnamedUnder(name, roots[..k], fs, shape)
    ensures var c' := DiscoverSpec(c, name, roots, fs, fuel).value;
      var path := Join(roots[k], name);
      shape in c'.shapes && c'.icons[c'.shapes[shape]] == IconAt(path, fs[path], shape)
  {
    PassEarliestRootWins(c, name, roots, fs, k, shape);
  }

  /** The names of the non-link entries of the icon directory `discover` scans in `dir`;
      a link may or may not be cached, by the order rule of `Scanner.ScanLinkRule`. */
  ghost function DirShapes(dir: ThemeDir): set<string> {
    set s | s in (if !dir.scalable.Missing? then NamesOf(dir.scalable) else NamesOf(dir.cursors))
              && ListsRegular(dir, s)
  }

  ghost function NamesOf(listing: Listing): set<string> {
    if listing.Listed? then Names(listing.entries) else {}
  }

  /** The shapes the theme directories of `name` under `roots` list. */
  ghost function ThemeShapes(name: string, roots: seq<Path>, fs: FileSystem): set<string>
    decreases |roots|
  {
    if roots == [] then {}
    else
      var path := Join(roots[0], name);
      (if path in fs then DirShapes(fs[path]) else {}) + ThemeShapes(name, roots[1..], fs)
  }

  /** A pass over the roots caches every non-link shape the theme's scanned directories list. */
  lemma {:induction false} PassAddsThemeShapes(c: Cache, name: string, roots: seq<Path>, fs: FileSystem)
    requires c.Valid()
    requires PassFrom(c, name, roots, fs).Done?
    ensures ThemeShapes(name, roots, fs) <= PassFrom(c, name, roots, fs).value.shapes.Keys
    decreases |roots|
  {
    if roots != [] {
      var path := Join(roots[0], name);
      if path !in fs {
        PassAddsThemeShapes(c, name, roots[1..], fs);
      } else {
        var m := VisitRoot(c, path, fs[path]).value;
        PassAddsThemeShapes(m, name, roots[1..], fs);
        forall s | s in DirShapes(fs[path]) ensures s in m.shapes {
          if s !in c.shapes {
            VisitRootEffect(c, path, fs[path], s);
          }
        }
      }
    }
  }

  /** `discover` caches every non-link shape listed by every theme of the inheritance chain. */
  lemma {:induction false} DiscoverAddsChainShapes(c: Cache, name: string, roots: seq<Path>, fs: FileSystem, fuel: nat)
    requires c.Valid()
    requires DiscoverSpec(c, name, roots, fs, fuel).Done?
    ensures forall k: nat :: Ancestor(name, roots, fs, k).Some? ==>
      ThemeShapes(Ancestor(name, roots, fs, k).value, roots, fs) <= DiscoverSpec(c, name, roots, fs, fuel).value.shapes.Keys
    decreases fuel, 1
  {
    PassAddsThemeShapes(c, name, roots, fs);
    match DeclaredParent(name, roots, fs)
    case None =>
      ChainShapesAtEnd(name, roots, fs, DiscoverSpec(c, name, roots, fs, fuel).value.shapes.Keys);
    case Some(parent) =>
      DiscoverFollowsParent(c, name, parent, roots, fs, fuel);
  }

  /** `DiscoverAddsChainShapes` for a theme with a parent, once the theme's own pass has
      cached the shapes its directories list. */
  lemma {:induction false} DiscoverFollowsParent(c: Cache, name: string, parent: string, roots: seq<Path>, fs: FileSystem, fuel: nat)
    requires c.Valid() && DeclaredParent(name, roots, fs) == Some(parent)
    requires DiscoverSpec(c, name, roots, fs, fuel).Done?
    requires ThemeShapes(name, roots, fs) <= PassFrom(c, name, roots, fs).value.shapes.Keys
    ensures forall k: nat :: Ancestor(name, roots, fs, k).Some? ==>
      ThemeShapes(Ancestor(name, roots, fs, k).value, roots, fs) <= DiscoverSpec(c, name, roots, fs, fuel).value.shapes.Keys
    decreases fuel, 0
  {
    var c1 := PassFrom(c, name, roots, fs).value;
    DiscoverParentStep(c, name, parent, roots, fs, fuel);
    var r := DiscoverSpec(c1, parent, roots, fs, fuel - 1);
    DiscoverAddsChainShapes(c1, parent, roots, fs, fuel - 1);
    ChainShapesThroughParent(name, parent, roots, fs, c1.shapes.Keys, r.value.shapes.Keys);
  }

  /** Discovery for a theme with a parent that does not panic in the theme's own pass goes
      on with the parent, from the pass's cache, which it keeps. */
  lemma DiscoverParentStep(c: Cache, name: string, parent: string, roots: seq<Path>, fs: FileSystem, fuel: nat)
    requires c.Valid() && DeclaredParent(name, roots, fs) == Some(parent)
    requires DiscoverSpec(c, name, roots, fs, fuel).Done?
    ensures fuel > 0 && PassFrom(c, name, roots, fs).Done?
    ensures DiscoverSpec(c, name, roots, fs, fuel) == DiscoverSpec(PassFrom(c, name, roots, fs).value, parent, roots, fs, fuel - 1)
    ensures PassFrom(c, name, roots, fs).value.shapes.Keys <= DiscoverSpec(c, name, roots, fs, fuel).value.shapes.Keys
  {
  }

  /** A theme that declares no parent is the whole chain. */
  lemma ChainShapesAtEnd(name: string, roots: seq<Path>, fs: FileSystem, keys: set<string>)
    requires DeclaredParent(name, roots, fs).None? && ThemeShapes(name, roots, fs) <= keys
    ensures forall k: nat :: Ancestor(name, roots, fs, k).Some? ==>
      ThemeShapes(Ancestor(name, roots, fs, k).value, roots, fs) <= keys
  {
    forall k: nat | Ancestor(name, roots, fs, k).Some?
      ensures ThemeShapes(Ancestor(name, roots, fs, k).value, roots, fs) <= keys
    {
      assert k == 0;
    }
  }

  /** The chain of a theme is the theme followed by the chain of its parent. */
  lemma ChainShapesThroughParent(name: string, parent: string, roots: seq<Path>, fs: FileSystem, own: set<string>, keys: set<string>)
    requires DeclaredParent(name, roots, fs) == Some(parent) && ThemeShapes(name, roots, fs) <= own <= keys
    requires forall k: nat :: Ancestor(parent, roots, fs, k).Some? ==>
      ThemeShapes(Ancestor(parent, roots, fs, k).value, roots, fs) <= keys
    ensures forall k: nat :: Ancestor(name, roots, fs, k).Some? ==>
      ThemeShapes(Ancestor(name, roots, fs, k).value, roots, fs) <= keys
  {
    forall k: nat | Ancestor(name, roots, fs, k).Some?
      ensures ThemeShapes(Ancestor(name, roots, fs, k).value, roots, fs) <= keys
    {
      if k > 0 {
        assert Ancestor(name, roots, fs, k) == Ancestor(parent, roots, fs, k - 1);
      }
    }
  }

  /** A pass for a theme with no directory under any root finds nothing and changes nothing. */
  lemma {:induction false} PassFromAbsent(c: Cache, name: string, roots: seq<Path>, fs: FileSystem)
    requires c.Valid()
    requires forall k :: 0 <= k < |roots| ==> Join(roots[k], name) !in fs
    ensures PassFrom(c, name, roots, fs) == Done(c)
    ensures DeclaredParent(name, roots, fs) == None
    decreases |roots|
  {
    if roots != [] {
      assert Join(roots[0], name) !in fs;
      assert forall k :: 0 <= k < |roots[1..]| ==> roots[1..][k] == roots[k + 1];
      PassFromAbsent(c, name, roots[1..], fs);
    }
  }

  /** `load` of a theme with no directory under any root finds no theme. */
  lemma AbsentThemeNotFound(name: string, env: Env, fs: FileSystem, fuel: nat)
    requires HomeSet(env) && fuel > 0
    requires forall k :: 0 <= k < |CursorDirs(env)| ==> Join(CursorDirs(env)[k], name) !in fs
    ensures LoadSpec(name, env, fs, fuel) == Done(None)
  {
    PassFromAbsent(EmptyCache, name, CursorDirs(env), fs);
  }

  /** The names the icon directories `discover` scans for `name` list, links included. */
  ghost function ThemeNames(name: string, roots: seq<Path>, fs: FileSystem): set<string>
    decreases |roots|
  {
    if roots == [] then {}
    else
      var path := Join(roots[0], name);
      (if path in fs then ScannedNames(fs[path]) else {}) + ThemeNames(name, roots[1..], fs)
  }

  /** Whether some theme of the inheritance chain of `name` has a scanned directory that
      lists `shape`. */
  ghost predicate NamedInChain(name: string, roots: seq<Path>, fs: FileSystem, shape: string) {
    exists k: nat :: Ancestor(name, roots, fs, k).Some? &&
      shape in ThemeNames(Ancestor(name, roots, fs, k).value, roots, fs)
  }

  /** A pass adds only names that the theme's scanned directories list. */
  lemma {:induction false} PassKeysBounded(c: Cache, name: string, roots: seq<Path>, fs: FileSystem)
    requires c.Valid()
    requires PassFrom(c, name, roots, fs).Done?
    ensures PassFrom(c, name, roots, fs).value.shapes.Keys <= c.shapes.Keys + ThemeNames(name, roots, fs)
    decreases |roots|
  {
    if roots != [] {
      var path := Join(roots[0], name);
      if path !in fs {
        PassKeysBounded(c, name, roots[1..], fs);
      } else {
        var m := VisitRoot(c, path, fs[path]).value;
        VisitRootEffect(c, path, fs[path], name);
        PassKeysBounded(m, name, roots[1..], fs);
      }
    }
  }

  /** A name the theme's own scanned directories list is named in its chain. */
  lemma OwnNameInChain(name: string, roots: seq<Path>, fs: FileSystem, shape: string)
    requires shape in ThemeNames(name, roots, fs)
    ensures NamedInChain(name, roots, fs, shape)
  {
    assert Ancestor(name, roots, fs, 0) == Some(name);
  }

  /** A name in the chain of the parent is named in the chain of the theme. */
  lemma ParentNameInChain(name: string, parent: string, roots: seq<Path>, fs: FileSystem, shape: string)
    requires DeclaredParent(name, roots, fs) == Some(parent)
    requires NamedInChain(parent, roots, fs, shape)
    ensures NamedInChain(name, roots, fs, shape)
  {
    var k: nat :| Ancestor(parent, roots, fs, k).Some? &&
      shape in ThemeNames(Ancestor(parent, roots, fs, k).value, roots, fs);
    assert Ancestor(name, roots, fs, k + 1) == Ancestor(parent, roots, fs, k);
  }

  /** Discovery adds only names that some theme of the inheritance chain lists: with
      `DiscoverAddsChainShapes`, the cache lies between the chain's non-link shapes and all
      the names its scanned directories list. */
  lemma {:induction false} DiscoverKeysBounded(c: Cache, name: string, roots: seq<Path>, fs: FileSystem, fuel: nat)
    requires c.Valid()
    requires DiscoverSpec(c, name, roots, fs, fuel).Done?
    ensures forall shape :: shape in DiscoverSpec(c, name, roots, fs, fuel).value.shapes ==>
      shape in c.shapes || NamedInChain(name, roots, fs, shape)
    decreases fuel
  {
    PassKeysBounded(c, name, roots, fs);
    var c1 := PassFrom(c, name, roots, fs).value;
    match DeclaredParent(name, roots, fs)
    case None =>
      forall shape | shape in c1.shapes && shape !in c.shapes
        ensures NamedInChain(name, roots, fs, shape)
      {
        OwnNameInChain(name, roots, fs, shape);
      }
    case Some(parent) =>
      DiscoverParentStep(c, name, parent, roots, fs, fuel);
      DiscoverKeysBounded(c1, parent, roots, fs, fuel - 1);
      forall shape | shape in DiscoverSpec(c1, parent, roots, fs, fuel - 1).value.shapes && shape !in c.shapes
        ensures NamedInChain(name, roots, fs, shape)
      {
        if shape in c1.shapes {
          OwnNameInChain(name, roots, fs, shape);
        } else {
          ParentNameInChain(name, parent, roots, fs, shape);
        }
      }
  }

  /** Discovery from an empty cache finds some shape exactly when the inheritance chain
      provides one: nothing when no theme of the chain lists any name, and something when
      some theme lists a non-link shape. */
  lemma DiscoverFindsChain(name: string, roots: seq<Path>, fs: FileSystem, fuel: nat)
    requires DiscoverSpec(EmptyCache, name, roots, fs, fuel).Done?
    ensures (forall k: nat :: Ancestor(name, roots, fs, k).Some? ==> ThemeNames(Ancestor(name, roots, fs, k).value, roots, fs) == {})
      ==> DiscoverSpec(EmptyCache, name, roots, fs, fuel).value.shapes == map[]
    ensures (exists k: nat :: Ancestor(name, roots, fs, k).Some? && ThemeShapes(Ancestor(name, roots, fs, k).value, roots, fs) != {})
      ==> DiscoverSpec(EmptyCache, name, roots, fs, fuel).value.shapes != map[]
  {
    var c := DiscoverSpec(EmptyCache, name, roots, fs, fuel).value;
    DiscoverKeysBounded(EmptyCache, name, roots, fs, fuel);
    DiscoverAddsChainShapes(EmptyCache, name, roots, fs, fuel);
    if exists k: nat :: Ancestor(name, roots, fs, k).Some? && ThemeShapes(Ancestor(name, roots, fs, k).value, roots, fs) != {} {
      var k: nat :| Ancestor(name, roots, fs, k).Some? && ThemeShapes(Ancestor(name, roots, fs, k).value, roots, fs) != {};
      var s :| s in ThemeShapes(Ancestor(name, roots, fs, k).value, roots, fs);
      assert s in c.shapes;
    }
    if c.shapes != map[] {
      var s :| s in c.shapes;
      var k: nat :| Ancestor(name, roots, fs, k).Some? && s in ThemeNames(Ancestor(name, roots, fs, k).value, roots, fs);
      assert ThemeNames(Ancestor(name, roots, fs, k).value, roots, fs) != {};
    }
  }

  /** `load` finds no theme when no theme of the inheritance chain lists any name, and finds
      one when some theme of the chain lists a non-link shape. */
  lemma LoadFollowsChain(name: string, env: Env, fs: FileSystem, fuel: nat)
    requires HomeSet(env) && DiscoverSpec(EmptyCache, name, CursorDirs(env), fs, fuel).Done?
    ensures var roots := CursorDirs(env);
      (forall k: nat :: Ancestor(name, roots, fs, k).Some? ==> ThemeNames(Ancestor(name, roots, fs, k).value, roots, fs) == {})
        ==> LoadSpec(name, env, fs, fuel) == Done(None)
    ensures var roots := CursorDirs(env);
      (exists k: nat :: Ancestor(name, roots, fs, k).Some? && ThemeShapes(Ancestor(name, roots, fs, k).value, roots, fs) != {})
        ==> LoadSpec(name, env, fs, fuel).Done? && LoadSpec(name, env, fs, fuel).value.Some?
  {
    var roots := CursorDirs(env);
    var c := DiscoverSpec(EmptyCache, name, roots, fs, fuel).value;
    assert LoadSpec(name, env, fs, fuel) == Done(if c.shapes == map[] then None else Some(CursorTheme(c)));
    DiscoverFindsChain(name, roots, fs, fuel);
  }
}
