/** The search-path resolver: `PathBuf::join`, `std::env::split_paths`, and the ordered list
    of cursor roots built from the environment (`user_theme_dirs`, `xdg_data_dirs`,
    `CURSOR_DIRS` in src/lib.rs). Paths are Unix paths held as strings. */
module Paths {
  import opened Wrappers
  import opened Text

  type Path = string

  predicate IsAbsolute(p: Path) { p != [] && p[0] == '/' }

  /** `base.join(name)` on Unix: an absolute `name` replaces `base`; otherwise a `/` is put
      between the two unless `base` is empty or already ends with one. */
  function Join(base: Path, name: string): (p: Path)
    ensures |name| <= |p| && p[|p| - |name|..] == name
    ensures !IsAbsolute(name) ==> StartsWith(p, base)
    ensures IsAbsolute(name) ==> p == name
  {
    if IsAbsolute(name) then name
    else if base == [] || base[|base| - 1] == '/' then base + name
    else base + "/" + name
  }

  /** `std::env::split_paths` on Unix: the pieces between `:` characters, empty pieces
      included; the empty string gives one empty piece. */
  function SplitPaths(s: string): (parts: seq<Path>)
    ensures |parts| >= 1
    ensures forall i :: 0 <= i < |parts| ==> ':' !in parts[i]
    decreases |s|
  {
    var i := IndexOf(s, ':');
    if i == |s| then [s] else [s[..i]] + SplitPaths(s[i + 1..])
  }

  /** The inverse of `SplitPaths`: the pieces joined with `:`. */
  function JoinPaths(parts: seq<Path>): string
    requires |parts| >= 1
  {
    if |parts| == 1 then parts[0] else parts[0] + ":" + JoinPaths(parts[1..])
  }

  lemma {:induction false} SplitThenJoin(s: string)
    ensures JoinPaths(SplitPaths(s)) == s
    decreases |s|
  {
    var i := IndexOf(s, ':');
    if i < |s| {
      var rest := SplitPaths(s[i + 1..]);
      JoinPathsCons(s[..i], rest);
      SplitThenJoin(s[i + 1..]);
      assert s == s[..i] + ":" + s[i + 1..];
    }
  }

  /** One step of `JoinPaths`: a first piece, a `:`, then the rest joined. */
  lemma JoinPathsCons(head: Path, rest: seq<Path>)
    requires |rest| >= 1
    ensures JoinPaths([head] + rest) == head + ":" + JoinPaths(rest)
  {
    assert ([head] + rest)[1..] == rest;
  }

  lemma {:induction false} JoinThenSplit(parts: seq<Path>)
    requires |parts| >= 1
    requires forall i :: 0 <= i < |parts| ==> ':' !in parts[i]
    ensures SplitPaths(JoinPaths(parts)) == parts
  {
    var s := JoinPaths(parts);
    if |parts| == 1 {
      assert IndexOf(s, ':') == |s|;
    } else {
      JoinThenSplit(parts[1..]);
      var i := IndexOf(s, ':');
      assert s == parts[0] + ":" + JoinPaths(parts[1..]);
      assert s[|parts[0]|] == ':';
      assert forall j :: 0 <= j < |parts[0]| ==> s[j] == parts[0][j];
      assert i == |parts[0]|;
      assert s[..i] == parts[0];
      assert s[i + 1..] == JoinPaths(parts[1..]);
    }
  }

  /** The environment variables the resolver reads (`std::env::var_os`). */
  datatype Env = Env(
    xdgHome: Option<string>,      // XDG_HOME
    home: Option<string>,         // HOME
    xdgDataHome: Option<string>,  // XDG_DATA_HOME
    xdgDataDirs: Option<string>   // XDG_DATA_DIRS
  )

  /** `expect("$HOME is not set")` panics unless one of the two home variables is set. */
  predicate HomeSet(env: Env) { env.xdgHome.Some? || env.home.Some? }

  /** XDG_HOME when set, else HOME. */
  function Home(env: Env): (h: Path)
    requires HomeSet(env)
    ensures env.xdgHome.Some? ==> h == env.xdgHome.value
    ensures env.xdgHome.None? ==> h == env.home.value
  {
    match env.xdgHome
    case Some(h) => h
    case None => env.home.value
  }

  /** XDG_DATA_HOME when set, else `$HOME/.local/share`. */
  function DataHome(env: Env): (d: Path)
    requires HomeSet(env)
    ensures env.xdgDataHome.Some? ==> d == env.xdgDataHome.value
    ensures env.xdgDataHome.None? ==> d == Join(Home(env), ".local/share")
  {
    match env.xdgDataHome
    case Some(d) => d
    case None => Join(Home(env), ".local/share")
  }

  /** `p` ends in the path component `name`: it is `name`, or `name` follows a `/`. */
  predicate EndsWithComponent(p: Path, name: string) {
    && |name| <= |p| && p[|p| - |name|..] == name
    && (|p| == |name| || p[|p| - |name| - 1] == '/')
  }

  /** A path whose last component is `icons` or `.icons`, as the cursor roots are. */
  predicate IsIconsDir(p: Path) {
    EndsWithComponent(p, "icons") || EndsWithComponent(p, ".icons")
  }

  /** Joining `icons` or `.icons` to any base gives a path ending in that component. */
  lemma JoinNamesIconsDir(base: Path, name: string)
    requires name == "icons" || name == ".icons"
    ensures EndsWithComponent(Join(base, name), name) && IsIconsDir(Join(base, name))
  {
    var p := Join(base, name);
    if base != [] && base[|base| - 1] == '/' {
      assert p == base + name && p[|p| - |name| - 1] == base[|base| - 1];
    } else if base != [] {
      assert p == base + "/" + name && p[|p| - |name| - 1] == '/';
    }
    assert EndsWithComponent(p, name);
  }

  /** `user_theme_dirs`: the user data home's `icons`, then `$HOME/.icons`. */
  function UserThemeDirs(env: Env): (dirs: seq<Path>)
    requires HomeSet(env)
    ensures |dirs| == 2 && EndsWithComponent(dirs[0], "icons") && EndsWithComponent(dirs[1], ".icons")
  {
    JoinNamesIconsDir(DataHome(env), "icons");
    JoinNamesIconsDir(Home(env), ".icons");
    [Join(DataHome(env), "icons"), Join(Home(env), ".icons")]
  }

  /** `xdg_data_dirs`: each piece of XDG_DATA_DIRS joined with `icons`; when the variable is
      unset, the single root `/usr/share/icons`. */
  function XdgDataDirs(dataDirs: Option<string>): (dirs: seq<Path>)
    ensures |dirs| >= 1 && forall i :: 0 <= i < |dirs| ==> EndsWithComponent(dirs[i], "icons")
  {
    match dataDirs
    case None =>
      JoinNamesIconsDir("/usr/share", "icons");
      assert Join("/usr/share", "icons") == "/usr/share/icons";
      ["/usr/share/icons"]
    case Some(s) =>
      var parts := SplitPaths(s);
      var dirs := seq(|parts|, i requires 0 <= i < |parts| => Join(parts[i], "icons"));
      assert forall i :: 0 <= i < |parts| ==> EndsWithComponent(Join(parts[i], "icons"), "icons") by {
        forall i | 0 <= i < |parts| ensures EndsWithComponent(Join(parts[i], "icons"), "icons") {
          JoinNamesIconsDir(parts[i], "icons");
        }
      }
      dirs
  }

  /** `CURSOR_DIRS`: the user roots followed by the system roots. */
  function CursorDirs(env: Env): (roots: seq<Path>)
    requires HomeSet(env)
    ensures |roots| >= 3
    ensures forall i :: 0 <= i < |roots| ==> IsIconsDir(roots[i])
  {
    var user, system := UserThemeDirs(env), XdgDataDirs(env.xdgDataDirs);
    IconsDirsConcat(user, system);
    user + system
  }

  /** The user roots followed by the system roots all end in an icons component. */
  lemma IconsDirsConcat(user: seq<Path>, system: seq<Path>)
    requires |user| == 2 && EndsWithComponent(user[0], "icons") && EndsWithComponent(user[1], ".icons")
    requires forall i :: 0 <= i < |system| ==> EndsWithComponent(system[i], "icons")
    ensures forall i :: 0 <= i < |user + system| ==> IsIconsDir((user + system)[i])
  {
    forall i | 0 <= i < |user + system| ensures IsIconsDir((user + system)[i]) {
      if i >= 2 {
        assert (user + system)[i] == system[i - 2];
      }
    }
  }


  /** The order of the roots: two user roots, then one system root per XDG_DATA_DIRS piece
      (or the fallback), each an `icons` directory under its base. */
  lemma CursorDirsOrder(env: Env)
    requires HomeSet(env)
    ensures var roots := CursorDirs(env);
      && |roots| >= 3
      && roots[0] == Join(DataHome(env), "icons")
      && roots[1] == Join(Home(env), ".icons")
      && (env.xdgDataDirs.None? ==> roots[2..] == ["/usr/share/icons"])
      && (env.xdgDataDirs.Some? ==>
            var parts := SplitPaths(env.xdgDataDirs.value);
            && |roots| == 2 + |parts|
            && JoinPaths(parts) == env.xdgDataDirs.value
            && forall i :: 2 <= i < |roots| ==> roots[i] == Join(parts[i - 2], "icons"))
  {
    UserRootsFirst(env);
    SystemRootsOrder(env.xdgDataDirs);
  }

  /** The two user roots come first, then the system roots. */
  lemma UserRootsFirst(env: Env)
    requires HomeSet(env)
    ensures var roots := CursorDirs(env);
      && roots[0] == Join(DataHome(env), "icons")
      && roots[1] == Join(Home(env), ".icons")
      && roots[2..] == XdgDataDirs(env.xdgDataDirs)
  {
    var roots := CursorDirs(env);
    assert roots == UserThemeDirs(env) + XdgDataDirs(env.xdgDataDirs);
  }

  /** The system roots: the fallback when XDG_DATA_DIRS is unset, else one root per piece of
      the variable, in order. */
  lemma SystemRootsOrder(dataDirs: Option<string>)
    ensures dataDirs.None? ==> XdgDataDirs(dataDirs) == ["/usr/share/icons"]
    ensures dataDirs.Some? ==>
      var parts := SplitPaths(dataDirs.value);
      && |XdgDataDirs(dataDirs)| == |parts|
      && JoinPaths(parts) == dataDirs.value
      && forall i :: 0 <= i < |parts| ==> XdgDataDirs(dataDirs)[i] == Join(parts[i], "icons")
  {
    if dataDirs.Some? {
      SplitThenJoin(dataDirs.value);
    }
  }

  /** With only HOME set the roots are the three conventional directories. */
  lemma DefaultRoots()
    ensures CursorDirs(Env(None, Some("/home/u"), None, None))
         == ["/home/u/.local/share/icons", "/home/u/.icons", "/usr/share/icons"]
  {
    DefaultUserRoots();
    assert XdgDataDirs(None) == ["/usr/share/icons"];
  }

  /** With only HOME set, the user roots sit under `$HOME`. */
  lemma DefaultUserRoots()
    ensures UserThemeDirs(Env(None, Some("/home/u"), None, None))
         == ["/home/u/.local/share/icons", "/home/u/.icons"]
  {
    var env := Env(None, Some("/home/u"), None, None);
    assert Home(env) == "/home/u";
    assert DataHome(env) == "/home/u/.local/share";
    assert Join("/home/u/.local/share", "icons") == "/home/u/.local/share" + "/" + "icons";
    assert "/home/u/.local/share" + "/" + "icons" == "/home/u/.local/share/icons";
    assert Join("/home/u", ".icons") == "/home/u" + "/" + ".icons" == "/home/u/.icons";
  }

  /** XDG_HOME takes precedence over HOME and XDG_DATA_HOME over `$HOME/.local/share`;
      XDG_DATA_DIRS is split on `:` in order. */
  lemma OverriddenRoots()
    ensures CursorDirs(Env(Some("/x"), Some("/home/u"), Some("/data/"), Some("/a:/b")))
         == ["/data/icons", "/x/.icons", "/a/icons", "/b/icons"]
  {
    assert Join("/data/", "icons") == "/data/" + "icons" == "/data/icons";
    assert Join("/x", ".icons") == "/x" + "/" + ".icons" == "/x/.icons";
    TwoDataDirs();
  }

  lemma TwoDataDirs()
    ensures XdgDataDirs(Some("/a:/b")) == ["/a/icons", "/b/icons"]
  {
    JoinThenSplit(["/a", "/b"]);
    assert JoinPaths(["/a", "/b"]) == "/a:/b";
    assert Join("/a", "icons") == "/a" + "/" + "icons" == "/a/icons";
    assert Join("/b", "icons") == "/b" + "/" + "icons" == "/b/icons";
  }

  /** A set but empty XDG_DATA_DIRS is one empty piece, so the only system root is the
      relative path `icons`: the fallback applies only when the variable is unset. */
  lemma EmptyDataDirs()
    ensures XdgDataDirs(Some("")) == ["icons"]
  {
    assert SplitPaths("") == [""];
  }
}
