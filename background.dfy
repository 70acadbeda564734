/** Which image the launcher shows behind its window (background_path) and
    where select_background stores a newly chosen image. */
module Background {
  import opened Text
  import opened Paths
  import opened JsonValues
  import opened Disk

  /** The first name sorted(dir.glob("background.*")) yields, as a path in dir. */
  ghost function FirstBackground(fs: FileSystem, dir: Path): (r: Option<Path>)
    ensures r.None? <==> BackgroundEntries(fs, dir) == {}
    ensures r.Some? ==> Parent(r.value) == dir && IsBackgroundName(Name(r.value)) && Exists(fs, r.value)
    ensures r.Some? ==> forall n :: IsBackgroundName(n) && Exists(fs, Child(dir, n)) && n != Name(r.value) ==>
                          Below(Name(r.value), n)
  {
    var names := BackgroundEntries(fs, dir);
    if names == {} then None
    else
      var first := Least(names);
      ParentOfChild(dir, first);
      Some(Child(dir, first))
  }

  /** The configured image as a path: Path(configured), taken relative to
      UI_ASSETS_DIR unless absolute; None when the setting is missing or
      falsy. */
  function Configured(l: Layout, cfg: Document): (r: Option<Path>)
    requires PathLike(Get(cfg, "background_image", Null))
    ensures r.Some? <==> "background_image" in cfg && cfg["background_image"].Str? && cfg["background_image"].s != ""
    ensures r.Some? && Parse(cfg["background_image"].s).absolute ==> r.value == Parse(cfg["background_image"].s)
    ensures r.Some? && !Parse(cfg["background_image"].s).absolute ==>
              r.value.absolute == UiAssetsDir(l).absolute
              && r.value.parts == UiAssetsDir(l).parts + Parse(cfg["background_image"].s).parts
  {
    var v := Get(cfg, "background_image", Null);
    if Truthy(v) then Some(Concat(UiAssetsDir(l), Parse(v.s))) else None
  }

  /** background_path(): the configured image if it exists, else the first
      background.* of the user's UI assets, else the first of the bundled
      ones, else nothing. */
  ghost function BackgroundPath(fs: FileSystem, l: Layout, cfg: Document): (r: Option<Path>)
    requires PathLike(Get(cfg, "background_image", Null))
    ensures r.Some? ==> Exists(fs, r.value)
    ensures var c := Configured(l, cfg);
      && (c.Some? && Exists(fs, c.value) ==> r == c)
      && (!(c.Some? && Exists(fs, c.value)) && FirstBackground(fs, UiAssetsDir(l)).Some? ==>
            r == FirstBackground(fs, UiAssetsDir(l)))
      && (!(c.Some? && Exists(fs, c.value)) && FirstBackground(fs, UiAssetsDir(l)).None? ==>
            r == FirstBackground(fs, DefaultUiAssetsDir(l)))
  {
    var c := Configured(l, cfg);
    if c.Some? && Exists(fs, c.value) then c
    else
      var user := FirstBackground(fs, UiAssetsDir(l));
      if user.Some? then user else FirstBackground(fs, DefaultUiAssetsDir(l))
  }

  /** Nothing is shown only when no configured image exists and neither
      asset directory holds a background.* entry. */
  lemma NoBackground(fs: FileSystem, l: Layout, cfg: Document)
    requires PathLike(Get(cfg, "background_image", Null))
    ensures BackgroundPath(fs, l, cfg).None? <==>
      (Configured(l, cfg).None? || !Exists(fs, Configured(l, cfg).value))
      && BackgroundEntries(fs, UiAssetsDir(l)) == {}
      && BackgroundEntries(fs, DefaultUiAssetsDir(l)) == {}
  {
  }

  /** A user background.* beats every bundled one, whatever the bundled
      names are. */
  lemma UserAssetsFirst(fs: FileSystem, l: Layout, cfg: Document, n: string)
    requires PathLike(Get(cfg, "background_image", Null))
    requires Configured(l, cfg).None?
    requires IsBackgroundName(n) && Exists(fs, Child(UiAssetsDir(l), n))
    ensures BackgroundPath(fs, l, cfg).Some?
    ensures Parent(BackgroundPath(fs, l, cfg).value) == UiAssetsDir(l)
  {
    assert n in BackgroundEntries(fs, UiAssetsDir(l));
  }

  /** The file name select_background copies to: "background" followed by
      the picked file's suffix in lower case. */
  function BackgroundFileName(src: Path): string
  {
    BackgroundBasename + Lower(Suffix(src))
  }

  /** UI_ASSETS_DIR / BackgroundFileName(src). */
  function BackgroundDest(l: Layout, src: Path): (r: Path)
    ensures Parent(r) == UiAssetsDir(l)
    ensures Name(r) == BackgroundFileName(src)
  {
    ParentOfChild(UiAssetsDir(l), BackgroundFileName(src));
    Child(UiAssetsDir(l), BackgroundFileName(src))
  }

  /** The destination keeps the picked file's extension, lower-cased, and is
      a background.* name exactly when the picked file has a suffix; a
      picked file without one is stored as plain "background". */
  lemma BackgroundDestSuffix(l: Layout, src: Path)
    ensures Suffix(BackgroundDest(l, src)) == Lower(Suffix(src))
    ensures IsBackgroundName(Name(BackgroundDest(l, src))) <==> Suffix(src) != ""
  {
    var t := Lower(Suffix(src));
    LowerKeepsDots(Suffix(src));
    if Suffix(src) != "" {
      assert t[0] == '.';
      assert '.' !in t[1..] by {
        forall j | 1 <= j < |t|
          ensures t[j] != '.'
        {
          assert Suffix(src)[j] in Suffix(src)[1..];
        }
      }
    }
    SuffixAfterBasename(BackgroundDest(l, src), t);
  }

  /** A name made of "background" and a suffix-shaped tail (empty, or a dot
      followed by at least one character and no further dot) has exactly
      that tail as its suffix, and matches "background.*" exactly when the
      tail is not empty. */
  lemma SuffixAfterBasename(p: Path, t: string)
    requires Name(p) == BackgroundBasename + t
    requires t != "" ==> |t| >= 2 && t[0] == '.' && '.' !in t[1..]
    ensures Suffix(p) == t
    ensures IsBackgroundName(Name(p)) <==> t != ""
  {
    var name := Name(p);
    if t == "" {
      assert name == "background";
      assert '.' !in name;
      assert !StartsWith(name, BackgroundBasename + ".");
    } else {
      assert name[10] == '.';
      forall j | 10 < j < |name|
        ensures name[j] != '.'
      {
        assert name[j] == t[j - 10] && t[j - 10] in t[1..];
      }
      assert LastIndexOf(name, '.') == 10;
      assert name[10..] == t;
      assert name[..11] == BackgroundBasename + ".";
    }
  }

  /** Lower-casing neither creates nor removes dots. */
  lemma LowerKeepsDots(s: string)
    ensures forall i :: 0 <= i < |s| ==> (Lower(s)[i] == '.' <==> s[i] == '.')
    ensures ('.' in Lower(s)) == ('.' in s)
    ensures '/' !in s ==> '/' !in Lower(s)
  {
    if '.' in Lower(s) {
      var i :| 0 <= i < |s| && Lower(s)[i] == '.';
      assert s[i] == '.';
    }
    if '/' in Lower(s) {
      var i :| 0 <= i < |s| && Lower(s)[i] == '/';
      assert s[i] == '/';
    }
  }

  /** Once select_background has stored the configured path of the copy and
      the copy exists, background_path() shows exactly that copy. */
  lemma SelectedBackgroundWins(fs: FileSystem, l: Layout, cfg: Document, src: Path)
    requires LayoutOk(l) && WellFormed(src)
    requires "background_image" in cfg && cfg["background_image"] == Str(ToString(BackgroundDest(l, src)))
    requires Exists(fs, BackgroundDest(l, src))
    ensures BackgroundPath(fs, l, cfg) == Some(BackgroundDest(l, src))
  {
    BackgroundDestWellFormed(l, src);
    ParseToString(BackgroundDest(l, src));
  }

  /** The destination of a picked well-formed path is a well-formed path. */
  lemma BackgroundDestWellFormed(l: Layout, src: Path)
    requires LayoutOk(l) && WellFormed(src)
    ensures WellFormed(BackgroundDest(l, src))
  {
    var name := BackgroundFileName(src);
    LowerKeepsDots(Suffix(src));
    if Suffix(src) != "" {
      assert '/' !in Suffix(src) by {
        assert Name(src) == src.parts[|src.parts| - 1];
        assert Name(src)[|Name(src)| - |Suffix(src)|..] == Suffix(src);
      }
    }
    assert '/' !in name by {
      assert name == BackgroundBasename + Lower(Suffix(src));
    }
    assert name[0] == 'b';
    ChildWellFormed(l.appRoot, "user_data");
    ChildWellFormed(UserDataDir(l), "assets");
    ChildWellFormed(UserAssetsDir(l), "ui_assets");
    ChildWellFormed(UiAssetsDir(l), name);
  }
}
