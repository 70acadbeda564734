/** Loading config.json from an ordered list of candidates, migrating the
    legacy "game_path" key and filling in missing settings. */
module ConfigStore {
  import opened Text
  import opened Paths
  import opened JsonValues
  import opened Disk

  /** A place load_config may read from, with the needs_save flag it reports
      when that place supplies the data. */
  datatype Candidate = Candidate(path: Path, needsSave: bool)

  /** The fallbacks that differ from the primary path, in order, each marked
      as needing a write-back. */
  function FallbackCandidates(fallbacks: seq<Path>, primary: Path): (r: seq<Candidate>)
    ensures |r| <= |fallbacks|
    ensures forall i :: 0 <= i < |r| ==> r[i].needsSave && r[i].path != primary && r[i].path in fallbacks
  {
    if fallbacks == [] then []
    else if fallbacks[0] == primary then FallbackCandidates(fallbacks[1..], primary)
    else [Candidate(fallbacks[0], true)] + FallbackCandidates(fallbacks[1..], primary)
  }

  /** The primary path first, then the distinct fallbacks. */
  function Candidates(primary: Path, fallbacks: seq<Path>): (r: seq<Candidate>)
    ensures |r| >= 1 && r[0] == Candidate(primary, false)
    ensures forall i :: 1 <= i < |r| ==> r[i].needsSave && r[i].path != primary
  {
    [Candidate(primary, false)] + FallbackCandidates(fallbacks, primary)
  }

  /** The position of the first candidate that exists and decodes, or |cs|. */
  function FirstReadable(fs: FileSystem, cs: seq<Candidate>): (i: nat)
    ensures i <= |cs|
    ensures forall j :: 0 <= j < i ==> ReadConfig(fs, cs[j].path).None?
    ensures i < |cs| ==> ReadConfig(fs, cs[i].path).Some?
  {
    if cs == [] then 0
    else if ReadConfig(fs, cs[0].path).Some? then 0
    else 1 + FirstReadable(fs, cs[1..])
  }

  /** What load_config returns: the decoded document and needs_save. */
  datatype Loaded = Loaded(data: Document, needsSave: bool)

  /** load_config(primary, fallbacks). */
  function LoadConfig(fs: FileSystem, primary: Path, fallbacks: seq<Path>): (r: Loaded)
    ensures ReadConfig(fs, primary).Some? ==> r == Loaded(ReadConfig(fs, primary).value, false)
    ensures !r.needsSave ==> ReadConfig(fs, primary) == Some(r.data) || (Exists(fs, primary) && r.data == map[])
  {
    var cs := Candidates(primary, fallbacks);
    var i := FirstReadable(fs, cs);
    if i < |cs| then Loaded(ReadConfig(fs, cs[i].path).value, cs[i].needsSave)
    else Loaded(map[], !Exists(fs, primary))
  }

  /** With the primary unusable, the first fallback (in listed order, skipping
      copies of the primary) that decodes supplies the data, and a write-back
      is requested. */
  lemma {:induction false} LoadConfigFallback(fs: FileSystem, primary: Path, fallbacks: seq<Path>, k: nat)
    requires ReadConfig(fs, primary).None?
    requires k < |fallbacks| && fallbacks[k] != primary && ReadConfig(fs, fallbacks[k]).Some?
    requires forall j :: 0 <= j < k ==> fallbacks[j] == primary || ReadConfig(fs, fallbacks[j]).None?
    ensures LoadConfig(fs, primary, fallbacks) == Loaded(ReadConfig(fs, fallbacks[k]).value, true)
  {
    FirstFallback(fs, primary, fallbacks, k);
    var cs := Candidates(primary, fallbacks);
    assert cs[1..] == FallbackCandidates(fallbacks, primary);
    assert FirstReadable(fs, cs) == 1 + FirstReadable(fs, cs[1..]);
  }

  lemma {:induction false} FirstFallback(fs: FileSystem, primary: Path, fallbacks: seq<Path>, k: nat)
    requires k < |fallbacks| && fallbacks[k] != primary && ReadConfig(fs, fallbacks[k]).Some?
    requires forall j :: 0 <= j < k ==> fallbacks[j] == primary || ReadConfig(fs, fallbacks[j]).None?
    ensures var cs := FallbackCandidates(fallbacks, primary);
            var i := FirstReadable(fs, cs);
            i < |cs| && cs[i] == Candidate(fallbacks[k], true)
  {
    var cs := FallbackCandidates(fallbacks, primary);
    if k == 0 {
      assert cs[0] == Candidate(fallbacks[0], true);
    } else {
      FirstFallback(fs, primary, fallbacks[1..], k - 1);
      if fallbacks[0] == primary {
        assert cs == FallbackCandidates(fallbacks[1..], primary);
      } else {
        assert cs == [Candidate(fallbacks[0], true)] + FallbackCandidates(fallbacks[1..], primary);
        assert cs[1..] == FallbackCandidates(fallbacks[1..], primary);
      }
    }
  }

  /** When no candidate decodes the result is an empty document, and a
      write-back is requested only if the primary file does not exist: an
      existing but corrupt primary is reported as not needing a save. */
  lemma LoadConfigNothing(fs: FileSystem, primary: Path, fallbacks: seq<Path>)
    requires ReadConfig(fs, primary).None?
    requires forall j :: 0 <= j < |fallbacks| ==> ReadConfig(fs, fallbacks[j]).None?
    ensures LoadConfig(fs, primary, fallbacks) == Loaded(map[], !Exists(fs, primary))
  {
  }

  /** Reading back what a successful save wrote yields it, from the primary. */
  lemma LoadAfterSave(fs: FileSystem, primary: Path, fallbacks: seq<Path>, doc: Document)
    ensures LoadConfig(WriteConfig(fs, primary, doc), primary, fallbacks) == Loaded(doc, false)
  {
  }

  /** When the bundle directory is the application directory, the only
      fallback equals the primary path and is never tried. */
  lemma {:induction false} UnfrozenSingleCandidate(l: Layout)
    requires l.basePath == l.appRoot
    ensures Candidates(ConfigFile(l), ConfigFallbacks(l)) == [Candidate(ConfigFile(l), false)]
  {
    var fb := ConfigFallbacks(l);
    assert FallbackCandidates(fb, ConfigFile(l)) == FallbackCandidates(fb[1..], ConfigFile(l));
    assert fb[1..] == [];
  }

  /** The game directory derived from a legacy executable path: its parent
      when the last component has a suffix, the path itself otherwise. */
  function LegacyGameDir(legacy: string): string
  {
    var p := Parse(legacy);
    ToString(if Suffix(p) != "" then Parent(p) else p)
  }

  /** A printed path to a file with a suffix migrates to its directory. */
  lemma LegacyExecutableInDirectory(dir: Path, exe: string)
    requires WellFormed(dir) && GoodParts([exe])
    requires Suffix(Child(dir, exe)) != ""
    ensures LegacyGameDir(ToString(Child(dir, exe))) == ToString(dir)
  {
    var p := Child(dir, exe);
    assert WellFormed(p) by {
      assert forall i :: 0 <= i < |dir.parts| ==> p.parts[i] == dir.parts[i];
    }
    ParseToString(p);
    ParentOfChild(dir, exe);
  }

  /** A printed path whose last component has no suffix migrates unchanged. */
  lemma LegacyDirectoryKept(p: Path)
    requires WellFormed(p) && Suffix(p) == ""
    ensures LegacyGameDir(ToString(p)) == ToString(p)
  {
    ParseToString(p);
  }

  /** "Game.exe" has the suffix ".exe". */
  lemma SuffixOfExecutable()
    ensures Suffix(Path(true, ["Game.exe"])) == ".exe"
  {
    var n := "Game.exe";
    assert n[..7] == "Game.ex" && n[..6] == "Game.e" && n[..5] == "Game.";
    assert LastIndexOf(n, '.') == 4;
  }

  /** A name ending in a dot, "Game.", has no suffix. */
  lemma SuffixTrailingDot()
    ensures Suffix(Path(true, ["Game."])) == ""
  {
    assert LastIndexOf("Game.", '.') == 4;
  }

  /** A name whose only dot leads, ".exe", has no suffix. */
  lemma SuffixLeadingDot()
    ensures Suffix(Path(true, [".exe"])) == ""
  {
    var e := ".exe";
    assert e[..3] == ".ex" && e[..2] == ".e" && e[..1] == ".";
    assert LastIndexOf(e, '.') == 0;
  }

  /** The documents start-up gets through: pathlib.Path is applied to the
      legacy value only when it is truthy and no "game_dir" is present, and
      it raises TypeError on anything but a string. */
  predicate Migratable(d: Document)
  {
    "game_dir" in d || PathLike(Get(d, "game_path", Null))
  }

  /** The outcome of the migration step: the document and the `converted` flag. */
  datatype Migrated = Migrated(cfg: Document, converted: bool)

  /** cfg.pop("game_path") and, for a non-empty legacy value with no
      "game_dir", the derived "game_dir". */
  function Migrate(d: Document): (r: Migrated)
    requires Migratable(d)
    ensures "game_path" !in r.cfg
    ensures r.converted <==> "game_path" in d && d["game_path"] != Null
    ensures forall k :: k != "game_path" && k != "game_dir" ==> (k in r.cfg <==> k in d)
    ensures forall k :: k in d && k != "game_path" && k != "game_dir" ==> r.cfg[k] == d[k]
    ensures "game_dir" in d ==> "game_dir" in r.cfg && r.cfg["game_dir"] == d["game_dir"]
    ensures "game_dir" !in d ==>
      ("game_dir" in r.cfg <==> "game_path" in d && Truthy(d["game_path"]))
    ensures "game_dir" !in d && "game_dir" in r.cfg ==>
      r.cfg["game_dir"] == Str(LegacyGameDir(d["game_path"].s))
  {
    var legacy := Get(d, "game_path", Null);
    var rest := d - {"game_path"};
    if Truthy(legacy) && "game_dir" !in rest then
      Migrated(rest["game_dir" := Str(LegacyGameDir(legacy.s))], true)
    else
      Migrated(rest, legacy != Null)
  }

  /** Migrating a migrated document changes nothing and converts nothing. */
  lemma MigrateIdempotent(d: Document)
    requires Migratable(d)
    ensures Migrate(Migrate(d).cfg) == Migrated(Migrate(d).cfg, false)
  {
    var m := Migrate(d).cfg;
    assert m - {"game_path"} == m;
  }

  /** The window geometry Kivy reports at first start. */
  datatype WindowGeometry = WindowGeometry(width: int, height: int, left: int, top: int)

  /** A pair of integers as the config stores it: a JSON list. */
  function IntPair(a: int, b: int): Json
  {
    Arr([Num(a), Num(b)])
  }

  /** The settings every configuration holds once the launcher has started. */
  const RequiredKeys: set<string> := {"language", "game_dir", "background_image", "window_size", "window_position"}

  /** The settings a handler may overwrite once the launcher has started. */
  const HandlerKeys: set<string> := {"game_dir", "background_image", "window_size", "window_position"}

  /** A configuration after start-up: every setting present, the legacy key
      gone, and the language setting the active language. */
  ghost predicate SettledConfig(d: Document, lang: string)
  {
    && RequiredKeys <= d.Keys
    && "game_path" !in d
    && d["language"] == Str(lang)
  }

  /** Overwriting a setting other than the language keeps a configuration settled. */
  lemma SettledSet(d: Document, lang: string, key: string, v: Json)
    requires SettledConfig(d, lang) && key in HandlerKeys
    ensures SettledConfig(d[key := v], lang)
  {
  }

  /** Storing the language in a configuration holding every setting and no
      legacy key settles it on that language. */
  lemma SettledLanguage(d: Document, lang: string)
    requires RequiredKeys <= d.Keys && "game_path" !in d
    ensures SettledConfig(d["language" := Str(lang)], lang)
  {
  }

  /** The outcome of the default-filling step: the document and `defaults_applied`. */
  datatype Filled = Filled(cfg: Document, applied: bool)

  /** Sets cfg[key] to value when key is missing, noting whether it did. */
  function FillKey(f: Filled, key: string, value: Json): Filled
  {
    if key in f.cfg then f else Filled(f.cfg[key := value], true)
  }

  /** Writes the active language and fills the four other missing settings
      with "" and the window's current geometry. */
  function FillDefaults(d: Document, lang: string, w: WindowGeometry): (r: Filled)
    ensures RequiredKeys <= r.cfg.Keys
    ensures r.cfg.Keys == d.Keys + RequiredKeys
    ensures "game_path" in r.cfg <==> "game_path" in d
    ensures "game_path" !in d ==> SettledConfig(r.cfg, lang)
    ensures r.cfg["language"] == Str(lang)
    ensures forall k :: k in d && k != "language" ==> r.cfg[k] == d[k]
    ensures "game_dir" !in d ==> r.cfg["game_dir"] == Str("")
    ensures "background_image" !in d ==> r.cfg["background_image"] == Str("")
    ensures "window_size" !in d ==> r.cfg["window_size"] == IntPair(w.width, w.height)
    ensures "window_position" !in d ==> r.cfg["window_position"] == IntPair(w.left, w.top)
    ensures r.applied <==> !(RequiredKeys <= d.Keys) || d["language"] != Str(lang)
  {
    var languageOk := "language" in d && d["language"] == Str(lang);
    var f0 := if languageOk then Filled(d, false) else Filled(d["language" := Str(lang)], true);
    var f1 := FillKey(f0, "game_dir", Str(""));
    var f2 := FillKey(f1, "background_image", Str(""));
    var f3 := FillKey(f2, "window_size", IntPair(w.width, w.height));
    FillKey(f3, "window_position", IntPair(w.left, w.top))
  }

  /** defaults_applied is raised exactly when filling changed the document. */
  lemma FillDefaultsChanges(d: Document, lang: string, w: WindowGeometry)
    ensures FillDefaults(d, lang, w).applied <==> FillDefaults(d, lang, w).cfg != d
  {
    var r := FillDefaults(d, lang, w).cfg;
    if !FillDefaults(d, lang, w).applied {
      assert r.Keys == d.Keys;
      assert forall k :: k in d ==> r[k] == d[k];
    } else if !(RequiredKeys <= d.Keys) {
      assert r.Keys != d.Keys;
    } else {
      assert r["language"] != d["language"];
    }
  }

  /** Filling a filled document again applies nothing. */
  lemma FillDefaultsIdempotent(d: Document, lang: string, w: WindowGeometry)
    ensures var f := FillDefaults(d, lang, w);
            FillDefaults(f.cfg, lang, w) == Filled(f.cfg, false)
  {
    var f := FillDefaults(d, lang, w);
    var g := FillDefaults(f.cfg, lang, w);
    assert g.cfg.Keys == f.cfg.Keys;
  }

  /** An empty document comes out with every setting present and a
      write-back requested. */
  lemma EmptyDocumentGetsDefaults(lang: string, w: WindowGeometry)
    ensures var f := FillDefaults(map[], lang, w);
            f.applied && f.cfg == map[
              "language" := Str(lang), "game_dir" := Str(""), "background_image" := Str(""),
              "window_size" := IntPair(w.width, w.height), "window_position" := IntPair(w.left, w.top)]
  {
  }
}
