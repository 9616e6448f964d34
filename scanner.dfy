/** The icon directory scanner: `CursorTheme::discover_cursors` in src/lib.rs, which fills
    the shape cache from one `cursors_scalable` or `cursors` directory. The directory listing
    is an argument. Shared `Arc<CursorIcon>` handles are indices into an arena of icons, so
    two shapes share one icon exactly when they map to the same handle. */
module Scanner {
  import opened Wrappers
  import opened Paths
  import opened CursorIcons

  /** A directory entry whose metadata could be read: a regular file or directory, or a
      symbolic link with the target `read_link` returns. */
  datatype Entry = Regular(name: string) | Symlink(name: string, target: string)

  /** What `read_dir` sees: no directory, a directory that cannot be listed, or its entries
      in the order the operating system returns them. */
  datatype Listing = Missing | Unreadable | Listed(entries: seq<Entry>)

  /** Which constructor `discover_cursors` is given (`discover_svg_cursors` or
      `discover_x_cursors`). */
  datatype Format = SvgFormat | XFormat

  function MakeIcon(fmt: Format, path: Path): (icon: CursorIcon)
    ensures icon.path == path
    ensures icon.Svg? <==> fmt == SvgFormat
  {
    match fmt
    case SvgFormat => Svg(path)
    case XFormat => X(path)
  }

  function FormatOf(icon: CursorIcon): Format {
    if icon.Svg? then SvgFormat else XFormat
  }

  type Handle = nat

  /** The `HashMap<OsString, Arc<CursorIcon>>`: each shape maps to a handle into `icons`. */
  datatype Cache = Cache(shapes: map<string, Handle>, icons: seq<CursorIcon>) {
    ghost predicate Valid() {
      forall n :: n in shapes ==> shapes[n] < |icons|
    }
  }

  const EmptyCache: Cache := Cache(map[], [])

  /** `c2` keeps every icon and every shape of `c1`, with the same handle. */
  ghost predicate Extends(c1: Cache, c2: Cache) {
    && c1.icons <= c2.icons
    && forall n :: n in c1.shapes ==> n in c2.shapes && c2.shapes[n] == c1.shapes[n]
  }

  lemma ExtendsTransitive(c1: Cache, c2: Cache, c3: Cache)
    requires Extends(c1, c2) && Extends(c2, c3)
    ensures Extends(c1, c3)
  {
  }

  /** `target.file_name() == Some(target.as_os_str())`: a single normal path component. */
  predicate IsBareFileName(t: string) {
    t != [] && '/' !in t && t != "." && t != ".."
  }

  /** A target that names a sibling passes the assert; one with a directory part, a
      trailing `/`, or `..` does not. */
  lemma BareFileNames()
    ensures IsBareFileName("left_ptr")
    ensures !IsBareFileName("../left_ptr") && !IsBareFileName("/usr/share/icons/left_ptr")
    ensures !IsBareFileName("left_ptr/") && !IsBareFileName("..") && !IsBareFileName("")
  {
    assert "../left_ptr"[2] == '/' && "/usr/share/icons/left_ptr"[0] == '/' && "left_ptr/"[8] == '/';
  }

  /** The names of the entries `es`. */
  function Names(es: seq<Entry>): set<string> {
    set e | e in es :: e.name
  }

  /** The entries that are not symbolic links, in listing order. */
  function Regulars(es: seq<Entry>): (r: seq<Entry>)
    ensures forall e {:trigger e in r} :: e in r <==> e in es && e.Regular?
    ensures forall k :: 0 <= k < |r| ==> r[k].Regular?
  {
    if es == [] then []
    else if es[0].Regular? then [es[0]] + Regulars(es[1..])
    else Regulars(es[1..])
  }

  /** The symbolic links, in listing order. */
  function Symlinks(es: seq<Entry>): (r: seq<Entry>)
    ensures forall e {:trigger e in r} :: e in r <==> e in es && e.Symlink?
    ensures forall k :: 0 <= k < |r| ==> r[k].Symlink?
  {
    if es == [] then []
    else if es[0].Symlink? then [es[0]] + Symlinks(es[1..])
    else Symlinks(es[1..])
  }

  /** `partition` then `chain`: non-links first, then links, each in listing order. */
  function ProcessingOrder(es: seq<Entry>): seq<Entry> {
    Regulars(es) + Symlinks(es)
  }

  /** Each filter takes or drops the first entry and goes on with the rest. */
  lemma FiltersStep(s: seq<Entry>)
    requires s != []
    ensures Regulars(s) == (if s[0].Regular? then [s[0]] else []) + Regulars(s[1..])
    ensures Symlinks(s) == (if s[0].Symlink? then [s[0]] else []) + Symlinks(s[1..])
  {
  }

  lemma SeqAssoc(a: seq<Entry>, b: seq<Entry>, c: seq<Entry>)
    ensures (a + b) + c == a + (b + c)
  {
  }

  /** Both filters keep listing order: filtering a concatenation concatenates the filtered
      parts. */
  lemma {:induction false} FiltersKeepOrder(a: seq<Entry>, b: seq<Entry>)
    ensures Regulars(a + b) == Regulars(a) + Regulars(b)
    ensures Symlinks(a + b) == Symlinks(a) + Symlinks(b)
    decreases |a|
  {
    if a == [] {
      assert a + b == b;
    } else {
      FiltersKeepOrder(a[1..], b);
      assert (a + b)[0] == a[0] && (a + b)[1..] == a[1..] + b;
      FiltersStep(a);
      FiltersStep(a + b);
      SeqAssoc(if a[0].Regular? then [a[0]] else [], Regulars(a[1..]), Regulars(b));
      SeqAssoc(if a[0].Symlink? then [a[0]] else [], Symlinks(a[1..]), Symlinks(b));
    }
  }

  /** The processing order is a permutation of the listing. */
  lemma {:induction false} ProcessingOrderIsPermutation(es: seq<Entry>)
    ensures multiset(ProcessingOrder(es)) == multiset(es)
  {
    if es != [] {
      ProcessingOrderIsPermutation(es[1..]);
      assert es == [es[0]] + es[1..];
    }
  }

  /** In the processing order no link comes before a non-link. */
  lemma ProcessingOrderLinksLast(es: seq<Entry>)
    ensures var order := ProcessingOrder(es);
      forall i, j :: 0 <= i < j < |order| && order[i].Symlink? ==> order[j].Symlink?
  {
  }

  /** One turn of the loop at src/lib.rs:124-143 for `entry`. It panics exactly on an
      uncached link whose target is not a bare file name; otherwise it keeps every cached
      shape and icon and adds at most the entry's own name. */
  function Step(c: Cache, dir: Path, fmt: Format, entry: Entry): (r: Outcome<Cache>)
    ensures !r.OutOfFuel?
    ensures r.Panicked? <==> entry.name !in c.shapes && entry.Symlink? && !IsBareFileName(entry.target)
    ensures r.Done? ==> Extends(c, r.value) && r.value.shapes.Keys <= c.shapes.Keys + {entry.name}
  {
    if entry.name in c.shapes then Done(c)
    else match entry
      case Regular(shape) =>
        Done(Cache(c.shapes[shape := |c.icons|], c.icons + [MakeIcon(fmt, Join(dir, shape))]))
      case Symlink(shape, target) =>
        if !IsBareFileName(target) then Panicked(LinkTargetNotFileName)
        else if target in c.shapes then Done(c.(shapes := c.shapes[shape := c.shapes[target]]))
        else Done(c)
  }

  /** The loop over `es`, in order, stopping at a panic. */
  function ScanFrom(c: Cache, dir: Path, fmt: Format, es: seq<Entry>): (r: Outcome<Cache>)
    ensures !r.OutOfFuel?
    ensures r.Panicked? ==> r.reason == LinkTargetNotFileName
    decreases |es|
  {
    if es == [] then Done(c)
    else match Step(c, dir, fmt, es[0])
      case Done(c1) => ScanFrom(c1, dir, fmt, es[1..])
      case Panicked(reason) => Panicked(reason)
      case OutOfFuel => OutOfFuel
  }

  /** `discover_cursors` as a function of the cache and the directory listing. */
  function Scan(c: Cache, dir: Path, fmt: Format, listing: Listing): (r: Outcome<Cache>)
    ensures !r.OutOfFuel?
    ensures r == Panicked(ReadDirFailed) <==> !listing.Listed?
    ensures r.Panicked? ==> r.reason == ReadDirFailed || r.reason == LinkTargetNotFileName
  {
    match listing
    case Listed(es) => ScanFrom(c, dir, fmt, ProcessingOrder(es))
    case _ => Panicked(ReadDirFailed)
  }

  /** The four outcomes of one step. */
  lemma StepCases(c: Cache, dir: Path, fmt: Format, entry: Entry)
    ensures entry.name in c.shapes ==> Step(c, dir, fmt, entry) == Done(c)
    ensures entry.name !in c.shapes && entry.Regular? ==>
      Step(c, dir, fmt, entry) ==
        Done(Cache(c.shapes[entry.name := |c.icons|], c.icons + [MakeIcon(fmt, Join(dir, entry.name))]))
    ensures entry.name !in c.shapes && entry.Symlink? && !IsBareFileName(entry.target) ==>
      Step(c, dir, fmt, entry) == Panicked(LinkTargetNotFileName)
    ensures entry.name !in c.shapes && entry.Symlink? && IsBareFileName(entry.target) && entry.target in c.shapes ==>
      Step(c, dir, fmt, entry) == Done(c.(shapes := c.shapes[entry.name := c.shapes[entry.target]]))
    ensures entry.name !in c.shapes && entry.Symlink? && IsBareFileName(entry.target) && entry.target !in c.shapes ==>
      Step(c, dir, fmt, entry) == Done(c)
  {
  }

  /** The scan from position `i` is the step at `i` followed, unless it panics, by the
      scan from `i + 1`. */
  lemma ScanFromAt(c: Cache, dir: Path, fmt: Format, es: seq<Entry>, i: nat)
    requires i < |es|
    ensures Step(c, dir, fmt, es[i]).Done? ==>
      ScanFrom(c, dir, fmt, es[i..]) == ScanFrom(Step(c, dir, fmt, es[i]).value, dir, fmt, es[i + 1..])
    ensures !Step(c, dir, fmt, es[i]).Done? ==> ScanFrom(c, dir, fmt, es[i..]) == Step(c, dir, fmt, es[i])
  {
    assert es[i..][0] == es[i] && es[i..][1..] == es[i + 1..];
  }

  /** `discover_cursors`: partition the listing, then process its entries in order. */
  method DiscoverCursors(cache: Cache, dir: Path, fmt: Format, listing: Listing) returns (r: Outcome<Cache>)
    ensures r == Scan(cache, dir, fmt, listing)
  {
    if !listing.Listed? {
      return Panicked(ReadDirFailed);
    }
    r := ProcessEntries(cache, dir, fmt, ProcessingOrder(listing.entries));
  }

  /** The loop of `discover_cursors` over the entries in processing order: a name already
      cached is skipped; a link is checked, then aliased when its target is cached; any other
      entry gets a new icon. */
  method ProcessEntries(cache: Cache, dir: Path, fmt: Format, order: seq<Entry>) returns (r: Outcome<Cache>)
    ensures r == ScanFrom(cache, dir, fmt, order)
  {
    ghost var goal := ScanFrom(cache, dir, fmt, order);
    assert order[0..] == order;
    var c := cache;
    var i := 0;
    while i < |order|
      invariant 0 <= i <= |order|
      invariant ScanFrom(c, dir, fmt, order[i..]) == goal
    {
      ScanFromAt(c, dir, fmt, order, i);
      var out := ProcessEntry(c, dir, fmt, order[i]);
      if !out.Done? {
        return out;
      }
      c := out.value;
      i := i + 1;
    }
    assert order[i..] == [];
    return Done(c);
  }

  /** One turn of the loop of `discover_cursors`: a name already cached is skipped; a link
      is checked, then aliased when its target is cached; any other entry gets a new icon. */
  method ProcessEntry(c: Cache, dir: Path, fmt: Format, entry: Entry) returns (r: Outcome<Cache>)
    ensures r == Step(c, dir, fmt, entry)
  {
    StepCases(c, dir, fmt, entry);
    r := Done(c);
    if entry.name !in c.shapes {
      if entry.Symlink? {
        if !IsBareFileName(entry.target) {
          return Panicked(LinkTargetNotFileName);
        }
        if entry.target in c.shapes {
          r := Done(c.(shapes := c.shapes[entry.name := c.shapes[entry.target]]));
        }
      } else {
        r := Done(Cache(c.shapes[entry.name := |c.icons|], c.icons + [MakeIcon(fmt, Join(dir, entry.name))]));
      }
    }
  }

  lemma StepExtends(c: Cache, dir: Path, fmt: Format, entry: Entry)
    requires c.Valid()
    requires Step(c, dir, fmt, entry).Done?
    ensures var c1 := Step(c, dir, fmt, entry).value;
      c1.Valid() && Extends(c, c1) && c1.shapes.Keys <= c.shapes.Keys + {entry.name}
  {
  }

  /** Scanning never changes or removes a shape already cached (first writer wins) and
      never drops an icon. */
  lemma {:induction false} ScanFromExtends(c: Cache, dir: Path, fmt: Format, es: seq<Entry>)
    requires c.Valid()
    requires ScanFrom(c, dir, fmt, es).Done?
    ensures var c' := ScanFrom(c, dir, fmt, es).value;
      c'.Valid() && Extends(c, c') && c'.shapes.Keys <= c.shapes.Keys + Names(es)
    decreases |es|
  {
    if es != [] {
      StepExtends(c, dir, fmt, es[0]);
      var c1 := Step(c, dir, fmt, es[0]).value;
      ScanFromExtends(c1, dir, fmt, es[1..]);
      var c' := ScanFrom(c, dir, fmt, es).value;
      ExtendsTransitive(c, c1, c');
      forall n | n in c'.shapes ensures n in c.shapes || n in Names(es) {
        if n !in c1.shapes {
          var e :| e in es[1..] && e.name == n;
          assert e in es;
        } else if n !in c.shapes {
          assert es[0] in es;
        }
      }
    }
  }

  /** After a scan every non-link entry of the directory has a shape. */
  lemma {:induction false} ScanFromAddsRegulars(c: Cache, dir: Path, fmt: Format, es: seq<Entry>)
    requires c.Valid()
    requires ScanFrom(c, dir, fmt, es).Done?
    ensures forall e :: e in es && e.Regular? ==> e.name in ScanFrom(c, dir, fmt, es).value.shapes
    decreases |es|
  {
    if es != [] {
      StepExtends(c, dir, fmt, es[0]);
      var c1 := Step(c, dir, fmt, es[0]).value;
      ScanFromAddsRegulars(c1, dir, fmt, es[1..]);
      ScanFromExtends(c1, dir, fmt, es[1..]);
      forall e | e in es && e.Regular? ensures e.name in ScanFrom(c, dir, fmt, es).value.shapes {
        if e != es[0] { assert e in es[1..]; }
      }
    }
  }

  /** The icon a regular entry `shape` contributes: the entry's path, built with the
      scan's constructor. */
  ghost predicate FromRegular(c: Cache, dir: Path, fmt: Format, es: seq<Entry>, shape: string)
    requires c.Valid() && shape in c.shapes
  {
    Regular(shape) in es && c.icons[c.shapes[shape]] == MakeIcon(fmt, Join(dir, shape))
  }

  /** The link at position `i` of `es` is reached with its target cached: the entries
      before it are processed without a panic, and the target is then a shape. */
  ghost predicate TargetCachedWhenReached(c: Cache, dir: Path, fmt: Format, es: seq<Entry>, i: nat)
    requires i < |es| && es[i].Symlink?
  {
    var before := ScanFrom(c, dir, fmt, es[..i]);
    before.Done? && es[i].target in before.value.shapes
  }

  /** A link `shape -> target` of `es`, reached with its target cached, whose target
      shares `shape`'s handle in `c'`. */
  ghost predicate FromSymlink(c: Cache, c': Cache, dir: Path, fmt: Format, es: seq<Entry>, shape: string)
    requires shape in c'.shapes
  {
    exists i :: 0 <= i < |es| && es[i].Symlink? && es[i].name == shape
      && TargetCachedWhenReached(c, dir, fmt, es, i)
      && es[i].target in c'.shapes && c'.shapes[es[i].target] == c'.shapes[shape]
  }

  /** Where a shape `n` of `c'` that `c` lacks comes from, when `es` is processed from `c`:
      a non-link entry of `es` with a fresh icon at its own path, or a link of `es` that was
      reached with its target cached and shares its target's handle. */
  ghost predicate NewShapeOrigin(c: Cache, c': Cache, dir: Path, fmt: Format, es: seq<Entry>, n: string)
    requires c'.Valid() && n in c'.shapes
  {
    || (FromRegular(c', dir, fmt, es, n) && c'.shapes[n] >= |c.icons|)
    || FromSymlink(c, c', dir, fmt, es, n)
  }

  /** The shape one step adds keeps its origin in every later extension. */
  lemma StepShapeOrigin(c: Cache, dir: Path, fmt: Format, es: seq<Entry>, c': Cache)
    requires c.Valid() && c'.Valid() && es != []
    requires Step(c, dir, fmt, es[0]).Done? && Extends(Step(c, dir, fmt, es[0]).value, c')
    requires es[0].name in Step(c, dir, fmt, es[0]).value.shapes && es[0].name !in c.shapes
    ensures NewShapeOrigin(c, c', dir, fmt, es, es[0].name)
  {
    var c1 := Step(c, dir, fmt, es[0]).value;
    var n := es[0].name;
    assert es[0] in es;
    match es[0]
    case Regular(_) =>
      assert c1.shapes[n] == |c.icons| && c1.icons[|c.icons|] == MakeIcon(fmt, Join(dir, n));
      assert c'.icons[c'.shapes[n]] == c1.icons[c1.shapes[n]];
    case Symlink(_, t) =>
      assert es[..0] == [];
      assert TargetCachedWhenReached(c, dir, fmt, es, 0);
      assert c'.shapes[t] == c'.shapes[n];
  }

  /** The scan of the first `i + 1` entries is the first step followed by the scan of the
      next `i` entries. */
  lemma ScanPrefixShift(c: Cache, dir: Path, fmt: Format, es: seq<Entry>, i: nat)
    requires i < |es| && Step(c, dir, fmt, es[0]).Done?
    ensures ScanFrom(c, dir, fmt, es[..i + 1]) == ScanFrom(Step(c, dir, fmt, es[0]).value, dir, fmt, es[1..][..i])
  {
    assert es[..i + 1][0] == es[0] && es[..i + 1][1..] == es[1..][..i];
  }

  /** An origin among the later entries, after a first step that did not panic, is an
      origin among all entries. */
  lemma ShapeOriginWidens(c: Cache, c': Cache, dir: Path, fmt: Format, es: seq<Entry>, n: string)
    requires c'.Valid() && n in c'.shapes && es != []
    requires Step(c, dir, fmt, es[0]).Done?
    requires NewShapeOrigin(Step(c, dir, fmt, es[0]).value, c', dir, fmt, es[1..], n)
    ensures NewShapeOrigin(c, c', dir, fmt, es, n)
  {
    var c1 := Step(c, dir, fmt, es[0]).value;
    if FromRegular(c', dir, fmt, es[1..], n) && c'.shapes[n] >= |c1.icons| {
      assert Regular(n) in es;
    } else {
      SymlinkOriginWidens(c, c', dir, fmt, es, n);
    }
  }

  /** `ShapeOriginWidens` for a shape that a link of the later entries gives. */
  lemma SymlinkOriginWidens(c: Cache, c': Cache, dir: Path, fmt: Format, es: seq<Entry>, n: string)
    requires n in c'.shapes && es != []
    requires Step(c, dir, fmt, es[0]).Done?
    requires FromSymlink(Step(c, dir, fmt, es[0]).value, c', dir, fmt, es[1..], n)
    ensures FromSymlink(c, c', dir, fmt, es, n)
  {
    var c1 := Step(c, dir, fmt, es[0]).value;
    var i :| 0 <= i < |es[1..]| && es[1..][i].Symlink? && es[1..][i].name == n
      && TargetCachedWhenReached(c1, dir, fmt, es[1..], i)
      && es[1..][i].target in c'.shapes && c'.shapes[es[1..][i].target] == c'.shapes[n];
    ScanPrefixShift(c, dir, fmt, es, i);
    assert es[i + 1] == es[1..][i];
    assert TargetCachedWhenReached(c, dir, fmt, es, i + 1);
  }

  /** Every shape a scan adds is a non-link entry with a new icon of its own, or a link
      that was reached with its target cached and shares the target's handle. */
  lemma {:induction false} ScanFromNewShapes(c: Cache, dir: Path, fmt: Format, es: seq<Entry>)
    requires c.Valid()
    requires ScanFrom(c, dir, fmt, es).Done?
    ensures var c' := ScanFrom(c, dir, fmt, es).value;
      c'.Valid() &&
      forall n :: n in c'.shapes && n !in c.shapes ==> NewShapeOrigin(c, c', dir, fmt, es, n)
    decreases |es|
  {
    ScanFromExtends(c, dir, fmt, es);
    if es != [] {
      StepExtends(c, dir, fmt, es[0]);
      var c1 := Step(c, dir, fmt, es[0]).value;
      ScanFromNewShapes(c1, dir, fmt, es[1..]);
      ScanFromExtends(c1, dir, fmt, es[1..]);
      var c' := ScanFrom(c, dir, fmt, es).value;
      assert ScanFrom(c1, dir, fmt, es[1..]).value == c';
      forall n | n in c'.shapes && n !in c.shapes ensures NewShapeOrigin(c, c', dir, fmt, es, n) {
        if n in c1.shapes {
          StepShapeOrigin(c, dir, fmt, es, c');
        } else {
          ShapeOriginWidens(c, c', dir, fmt, es, n);
        }
      }
    }
  }

  /** A link `shape -> target` whose target is cached when the scan starts is added,
      sharing the target's handle, provided no other entry has its name. */
  lemma {:induction false} ScanFromLinksToCached(c: Cache, dir: Path, fmt: Format, es: seq<Entry>,
                                                 shape: string, target: string)
    requires c.Valid()
    requires ScanFrom(c, dir, fmt, es).Done?
    requires Symlink(shape, target) in es
    requires forall e :: e in es && e.name == shape ==> e == Symlink(shape, target)
    requires shape !in c.shapes && target in c.shapes
    ensures var c' := ScanFrom(c, dir, fmt, es).value;
      shape in c'.shapes && target in c'.shapes && c'.shapes[shape] == c'.shapes[target]
    decreases |es|
  {
    StepExtends(c, dir, fmt, es[0]);
    var c1 := Step(c, dir, fmt, es[0]).value;
    ScanFromExtends(c1, dir, fmt, es[1..]);
    if es[0] == Symlink(shape, target) {
      assert c1.shapes[shape] == c1.shapes[target];
    } else {
      assert es[0] in es;
      assert shape !in c1.shapes;
      forall e | e in es[1..] && e.name == shape ensures e == Symlink(shape, target) {
        assert e in es;
      }
      ScanFromLinksToCached(c1, dir, fmt, es[1..], shape, target);
    }
  }

  /** `ScanFrom` over a concatenation runs the second part on the result of the first. */
  lemma {:induction false} ScanFromAppend(c: Cache, dir: Path, fmt: Format, a: seq<Entry>, b: seq<Entry>)
    ensures ScanFrom(c, dir, fmt, a + b) ==
      match ScanFrom(c, dir, fmt, a)
      case Done(m) => ScanFrom(m, dir, fmt, b)
      case other => other
    decreases |a|
  {
    if a == [] {
      assert a + b == b;
    } else {
      assert (a + b)[1..] == a[1..] + b;
      assert (a + b)[0] == a[0];
      match Step(c, dir, fmt, a[0])
      case Done(c1) => ScanFromAppend(c1, dir, fmt, a[1..], b);
      case Panicked(_) =>
      case OutOfFuel =>
    }
  }

  /** A link whose target is already cached or is a non-link entry of the same directory is
      added and shares its target's handle, provided no other entry has the link's name. */
  lemma ScanLinkSharesTarget(c: Cache, dir: Path, fmt: Format, es: seq<Entry>, shape: string, target: string)
    requires c.Valid()
    requires Scan(c, dir, fmt, Listed(es)).Done?
    requires Symlink(shape, target) in es
    requires forall e :: e in es && e.name == shape ==> e == Symlink(shape, target)
    requires shape !in c.shapes
    requires target in c.shapes || Regular(target) in es
    ensures var c' := Scan(c, dir, fmt, Listed(es)).value;
      shape in c'.shapes && target in c'.shapes && c'.shapes[shape] == c'.shapes[target]
  {
    var regs, links := Regulars(es), Symlinks(es);
    ScanFromAppend(c, dir, fmt, regs, links);
    var mid := ScanFrom(c, dir, fmt, regs).value;
    ScanFromExtends(c, dir, fmt, regs);
    ScanFromAddsRegulars(c, dir, fmt, regs);
    forall e | e in regs ensures e.name != shape {
      assert e in es;
    }
    assert shape !in mid.shapes;
    assert target in mid.shapes by {
      if Regular(target) in es { assert Regular(target) in regs; }
    }
    forall e | e in links && e.name == shape ensures e == Symlink(shape, target) {
      assert e in es;
    }
    ScanFromLinksToCached(mid, dir, fmt, links, shape, target);
  }

  /** A scan changes no cached shape and removes nothing; afterwards every non-link entry
      has a shape, and no name outside the listing is added. Every shape it added is, in
      the processing order, either a non-link entry with a fresh icon at that entry's path,
      built by the scan's constructor, or a link that was reached with its target cached
      and shares its target's handle. */
  lemma ScanEffect(c: Cache, dir: Path, fmt: Format, listing: Listing)
    requires c.Valid()
    requires Scan(c, dir, fmt, listing).Done?
    ensures listing.Listed?
    ensures var c' := Scan(c, dir, fmt, listing).value;
      && c'.Valid()
      && Extends(c, c')
      && (forall e :: e in listing.entries && e.Regular? ==> e.name in c'.shapes)
      && c'.shapes.Keys <= c.shapes.Keys + Names(listing.entries)
      && (forall n :: n in c'.shapes && n !in c.shapes ==>
            NewShapeOrigin(c, c', dir, fmt, ProcessingOrder(listing.entries), n))
  {
    var es := listing.entries;
    var order := ProcessingOrder(es);
    ProcessingOrderIsPermutation(es);
    ScanFromExtends(c, dir, fmt, order);
    ScanFromAddsRegulars(c, dir, fmt, order);
    ScanFromNewShapes(c, dir, fmt, order);
    forall e | e in es ensures e in order {
      assert multiset(es)[e] > 0;
    }
    forall e | e in order ensures e in es {
      assert multiset(order)[e] > 0;
    }
    assert Names(order) == Names(es);
  }

  /** The rule for one link, both ways. The link `order[i]`, whose name no other entry has
      and is not cached, ends up sharing its target's handle when the target is cached by
      the time the link is reached, and is left out otherwise: a link reached before its
      target is never retried. */
  lemma ScanFromLinkAt(c: Cache, dir: Path, fmt: Format, order: seq<Entry>, i: nat)
    requires c.Valid()
    requires ScanFrom(c, dir, fmt, order).Done?
    requires i < |order| && order[i].Symlink? && order[i].name !in c.shapes
    requires forall j :: 0 <= j < |order| && j != i ==> order[j].name != order[i].name
    ensures var c' := ScanFrom(c, dir, fmt, order).value;
      && ScanFrom(c, dir, fmt, order[..i]).Done?
      && (TargetCachedWhenReached(c, dir, fmt, order, i) ==>
            order[i].name in c'.shapes && order[i].target in c'.shapes
            && c'.shapes[order[i].name] == c'.shapes[order[i].target])
      && (!TargetCachedWhenReached(c, dir, fmt, order, i) ==> order[i].name !in c'.shapes)
  {
    assert order == order[..i] + order[i..];
    ScanFromAppend(c, dir, fmt, order[..i], order[i..]);
    UniqueNameAt(order, i);
    var before := ScanFrom(c, dir, fmt, order[..i]).value;
    ScanFromExtends(c, dir, fmt, order[..i]);
    ScanFromAt(before, dir, fmt, order, i);
    LinkStep(before, dir, fmt, order[i]);
    StepExtends(before, dir, fmt, order[i]);
    ScanFromExtends(Step(before, dir, fmt, order[i]).value, dir, fmt, order[i + 1..]);
  }

  /** The name of `order[i]`, which no other entry has, is not among the names before it or
      after it. */
  lemma UniqueNameAt(order: seq<Entry>, i: nat)
    requires i < |order|
    requires forall j :: 0 <= j < |order| && j != i ==> order[j].name != order[i].name
    ensures order[i].name !in Names(order[..i]) && order[i].name !in Names(order[i + 1..])
  {
    forall e | e in order[i + 1..] ensures e.name != order[i].name {
      var j :| 0 <= j < |order[i + 1..]| && order[i + 1..][j] == e;
      assert order[i + 1 + j] == e;
    }
  }

  /** A link whose name is not cached joins the cache with its target's handle when the
      target is cached, and is not added otherwise. */
  lemma LinkStep(c: Cache, dir: Path, fmt: Format, e: Entry)
    requires e.Symlink? && e.name !in c.shapes && Step(c, dir, fmt, e).Done?
    ensures var c1 := Step(c, dir, fmt, e).value;
      && (e.target in c.shapes ==>
            e.name in c1.shapes && e.target in c1.shapes && c1.shapes[e.name] == c1.shapes[e.target])
      && (e.target !in c.shapes ==> e.name !in c1.shapes)
  {
  }

  /** The same rule over a listing, for a link whose name no other entry has. */
  lemma ScanLinkRule(c: Cache, dir: Path, fmt: Format, es: seq<Entry>, i: nat)
    requires c.Valid()
    requires Scan(c, dir, fmt, Listed(es)).Done?
    requires var order := ProcessingOrder(es);
      i < |order| && order[i].Symlink? && order[i].name !in c.shapes
      && forall j :: 0 <= j < |order| && j != i ==> order[j].name != order[i].name
    ensures var order, c' := ProcessingOrder(es), Scan(c, dir, fmt, Listed(es)).value;
      order[i].name in c'.shapes <==> TargetCachedWhenReached(c, dir, fmt, order, i)
    ensures var order, c' := ProcessingOrder(es), Scan(c, dir, fmt, Listed(es)).value;
      order[i].name in c'.shapes ==>
        order[i].target in c'.shapes && c'.shapes[order[i].name] == c'.shapes[order[i].target]
  {
    ScanFromLinkAt(c, dir, fmt, ProcessingOrder(es), i);
  }

  /** The listing `[Symlink("a", "b"), Symlink("b", "c"), Regular("c")]`: `b` aliases `c`,
      but `a` is reached before `b` is cached and is left out. */
  lemma ExampleLinkToLaterLink(dir: Path, fmt: Format)
    ensures var r := Scan(EmptyCache, dir, fmt, Listed([Symlink("a", "b"), Symlink("b", "c"), Regular("c")]));
      && r.Done?
      && "c" in r.value.shapes && "b" in r.value.shapes && r.value.shapes["b"] == r.value.shapes["c"]
      && "a" !in r.value.shapes
  {
    var es := [Symlink("a", "b"), Symlink("b", "c"), Regular("c")];
    assert es[1..][1..] == [Regular("c")] && es[1..][1..][1..] == [];
    assert Regulars(es) == [Regular("c")];
    assert Symlinks(es) == [Symlink("a", "b"), Symlink("b", "c")];
    var order := [Regular("c"), Symlink("a", "b"), Symlink("b", "c")];
    assert ProcessingOrder(es) == order;
    var c1 := Cache(map["c" := 0], [MakeIcon(fmt, Join(dir, "c"))]);
    var c2 := c1.(shapes := map["c" := 0, "b" := 0]);
    assert order[1..][1..] == [Symlink("b", "c")] && order[1..][1..][1..] == [];
    assert Step(c1, dir, fmt, Symlink("b", "c")) == Done(c2);
    assert ScanFrom(c1, dir, fmt, order[1..][1..]) == Done(c2);
    assert Step(c1, dir, fmt, Symlink("a", "b")) == Done(c1);
    assert ScanFrom(c1, dir, fmt, order[1..]) == Done(c2);
  }

  /** Over non-link entries only, a regular entry whose name is not cached gets a fresh
      icon at its own path. */
  lemma {:induction false} ScanFromRegularIcon(c: Cache, dir: Path, fmt: Format, es: seq<Entry>, shape: string)
    requires c.Valid()
    requires forall k :: 0 <= k < |es| ==> es[k].Regular?
    requires ScanFrom(c, dir, fmt, es).Done?
    requires Regular(shape) in es && shape !in c.shapes
    ensures var c' := ScanFrom(c, dir, fmt, es).value;
      && shape in c'.shapes && |c.icons| <= c'.shapes[shape] < |c'.icons|
      && c'.icons[c'.shapes[shape]] == MakeIcon(fmt, Join(dir, shape))
    decreases |es|
  {
    if es[0] == Regular(shape) {
      RegularIconFirst(c, dir, fmt, es, shape);
    } else {
      RegularIconLater(c, dir, fmt, es, shape);
      assert forall k :: 0 <= k < |es[1..]| ==> es[1..][k] == es[k + 1];
      ScanFromRegularIcon(Step(c, dir, fmt, es[0]).value, dir, fmt, es[1..], shape);
    }
  }

  /** Before the regular entry `shape` is reached, a first regular entry of another name
      leaves `shape` uncached, keeps the icons, and the scan goes on from its cache. */
  lemma RegularIconLater(c: Cache, dir: Path, fmt: Format, es: seq<Entry>, shape: string)
    requires c.Valid() && es != [] && es[0].Regular? && es[0] != Regular(shape) && shape !in c.shapes
    requires ScanFrom(c, dir, fmt, es).Done? && Regular(shape) in es
    ensures var c1 := Step(c, dir, fmt, es[0]).value;
      && Step(c, dir, fmt, es[0]).Done? && c1.Valid() && shape !in c1.shapes && |c.icons| <= |c1.icons|
      && ScanFrom(c1, dir, fmt, es[1..]) == ScanFrom(c, dir, fmt, es)
      && Regular(shape) in es[1..]
  {
    StepExtends(c, dir, fmt, es[0]);
  }

  /** `ScanFromRegularIcon` when the regular entry comes first. */
  lemma RegularIconFirst(c: Cache, dir: Path, fmt: Format, es: seq<Entry>, shape: string)
    requires c.Valid() && es != [] && es[0] == Regular(shape) && shape !in c.shapes
    requires ScanFrom(c, dir, fmt, es).Done?
    ensures var c' := ScanFrom(c, dir, fmt, es).value;
      && shape in c'.shapes && |c.icons| <= c'.shapes[shape] < |c'.icons|
      && c'.icons[c'.shapes[shape]] == MakeIcon(fmt, Join(dir, shape))
  {
    StepExtends(c, dir, fmt, es[0]);
    var c1 := Step(c, dir, fmt, es[0]).value;
    ScanFromExtends(c1, dir, fmt, es[1..]);
    assert c1.icons[c1.shapes[shape]] == MakeIcon(fmt, Join(dir, shape));
  }

  /** A non-link entry whose name is not cached gets a fresh icon at its own path, built
      by the scan's constructor, whatever links the directory also holds. */
  lemma ScanRegularIcon(c: Cache, dir: Path, fmt: Format, es: seq<Entry>, shape: string)
    requires c.Valid()
    requires Scan(c, dir, fmt, Listed(es)).Done?
    requires Regular(shape) in es && shape !in c.shapes
    ensures var c' := Scan(c, dir, fmt, Listed(es)).value;
      && shape in c'.shapes && |c.icons| <= c'.shapes[shape] < |c'.icons|
      && c'.icons[c'.shapes[shape]] == MakeIcon(fmt, Join(dir, shape))
  {
    var regs, links := Regulars(es), Symlinks(es);
    ScanFromAppend(c, dir, fmt, regs, links);
    ScanFromRegularIcon(c, dir, fmt, regs, shape);
    ScanFromExtends(c, dir, fmt, regs);
    ScanFromExtends(ScanFrom(c, dir, fmt, regs).value, dir, fmt, links);
  }

  /** A scan that finishes keeps the cache well formed and extends it. */
  lemma ScanKeepsCache(c: Cache, dir: Path, fmt: Format, listing: Listing)
    requires c.Valid()
    ensures var r := Scan(c, dir, fmt, listing);
      r.Done? ==> r.value.Valid() && Extends(c, r.value)
  {
    if Scan(c, dir, fmt, listing).Done? {
      ScanEffect(c, dir, fmt, listing);
    }
  }

  /** Every icon a scan adds is built by the scan's constructor. */
  lemma {:induction false} ScanFromIconFormat(c: Cache, dir: Path, fmt: Format, es: seq<Entry>)
    requires ScanFrom(c, dir, fmt, es).Done?
    ensures var c' := ScanFrom(c, dir, fmt, es).value;
      c.icons <= c'.icons &&
      forall h :: |c.icons| <= h < |c'.icons| ==> FormatOf(c'.icons[h]) == fmt
    decreases |es|
  {
    if es != [] {
      var c1 := Step(c, dir, fmt, es[0]).value;
      ScanFromIconFormat(c1, dir, fmt, es[1..]);
    }
  }

  /** A scan panics only on a directory it cannot list or on a link (not already cached)
      whose target is not a bare file name; with bare targets a listed directory never
      panics. */
  lemma {:induction false} ScanFromPanics(c: Cache, dir: Path, fmt: Format, es: seq<Entry>)
    ensures ScanFrom(c, dir, fmt, es).Panicked? ==>
      exists e :: e in es && e.Symlink? && !IsBareFileName(e.target)
    decreases |es|
  {
    if es != [] {
      match Step(c, dir, fmt, es[0])
      case Done(c1) =>
        ScanFromPanics(c1, dir, fmt, es[1..]);
        if ScanFrom(c, dir, fmt, es).Panicked? {
          var e :| e in es[1..] && e.Symlink? && !IsBareFileName(e.target);
          assert e in es;
        }
      case Panicked(_) =>
        assert es[0] in es;
      case OutOfFuel =>
    }
  }

  lemma ScanPanics(c: Cache, dir: Path, fmt: Format, listing: Listing)
    ensures Scan(c, dir, fmt, listing) == Panicked(ReadDirFailed) <==> !listing.Listed?
    ensures Scan(c, dir, fmt, listing) == Panicked(LinkTargetNotFileName) ==>
      listing.Listed? && exists e :: e in listing.entries && e.Symlink? && !IsBareFileName(e.target)
    ensures listing.Listed? && (forall e :: e in listing.entries && e.Symlink? ==> IsBareFileName(e.target))
      ==> Scan(c, dir, fmt, listing).Done?
  {
    if listing.Listed? {
      var order := ProcessingOrder(listing.entries);
      ScanFromPanics(c, dir, fmt, order);
      ProcessingOrderIsPermutation(listing.entries);
      if Scan(c, dir, fmt, listing).Panicked? {
        var e :| e in order && e.Symlink? && !IsBareFileName(e.target);
        assert multiset(order)[e] > 0;
      }
    }
  }
}
