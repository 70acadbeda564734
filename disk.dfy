/** The file system as the launcher observes it, and the directory layout it
    derives from its install location. Reading and writing files, mkdir and
    glob are modelled as operations on this value. */
module Disk {
  import opened Text
  import opened Paths
  import opened JsonValues

  /** A language catalog: message key to template. */
  type Catalog = map<string, string>

  /** files and dirs are the paths that exist; configs and catalogs give, for
      the files whose text decodes, the decoded object. */
  datatype FileSystem = FileSystem(
    files: set<Path>,
    dirs: set<Path>,
    configs: map<Path, Document>,
    catalogs: map<Path, Catalog>)

  /** Path.exists(): a file or a directory. */
  predicate Exists(fs: FileSystem, p: Path)
  {
    p in fs.files || p in fs.dirs
  }

  /** read_text followed by json.loads: None when the file is missing, is a
      directory, or does not decode. */
  function ReadConfig(fs: FileSystem, p: Path): (r: Option<Document>)
    ensures r.Some? ==> Exists(fs, p)
  {
    if p in fs.files && p in fs.configs then Some(fs.configs[p]) else None
  }

  /** A successful write_text of json.dumps(doc): the file exists afterwards
      and decodes to doc; nothing else changes. */
  function WriteConfig(fs: FileSystem, p: Path, doc: Document): (r: FileSystem)
    ensures ReadConfig(r, p) == Some(doc)
    ensures forall q :: q != p ==> ReadConfig(r, q) == ReadConfig(fs, q)
    ensures forall q :: Exists(fs, q) ==> Exists(r, q)
    ensures r.dirs == fs.dirs
  {
    fs.(files := fs.files + {p}, configs := fs.configs[p := doc])
  }

  /** The outcome of one I/O call made outside the model: it completed, or it
      raised an exception whose text is message. clobbered says whether a
      failing write had already opened (and so truncated) its file. */
  datatype IoResult = Done | Failed(message: string, clobbered: bool)

  /** A write_text that raised after opening p for writing: the file exists,
      truncated, and no longer decodes; nothing else changes. A directory
      cannot be opened for writing, so it is left as it was. */
  function Clobbered(fs: FileSystem, p: Path): (r: FileSystem)
    ensures p !in fs.dirs ==> Exists(r, p) && ReadConfig(r, p).None?
    ensures forall q :: q != p ==> ReadConfig(r, q) == ReadConfig(fs, q)
    ensures forall q :: Exists(fs, q) ==> Exists(r, q)
    ensures r.dirs == fs.dirs
  {
    if p in fs.dirs then fs else fs.(files := fs.files + {p}, configs := fs.configs - {p})
  }

  /** save_config(doc, p): the file system after the attempt. A write that
      fails before opening the file leaves the disk as it was; one that fails
      after opening it leaves the file truncated. */
  function SaveConfig(fs: FileSystem, p: Path, doc: Document, io: IoResult): (r: FileSystem)
    ensures io.Done? ==> ReadConfig(r, p) == Some(doc)
    ensures io.Failed? && !io.clobbered ==> r == fs
    ensures io.Failed? && io.clobbered && p !in fs.dirs ==> Exists(r, p) && ReadConfig(r, p).None?
    ensures forall q :: q != p ==> ReadConfig(r, q) == ReadConfig(fs, q)
  {
    if io.Done? then WriteConfig(fs, p, doc)
    else if io.clobbered then Clobbered(fs, p)
    else fs
  }

  /** Saving never removes a file or directory. */
  lemma SaveKeeps(fs: FileSystem, p: Path, doc: Document, io: IoResult, q: Path)
    requires Exists(fs, q)
    ensures Exists(SaveConfig(fs, p, doc, io), q)
  {
  }

  /** Where the launcher lives: appRoot (APP_ROOT) is the directory of the
      script or of the frozen executable; basePath (BASE_PATH) is the bundle
      directory, equal to appRoot when not frozen. */
  datatype Layout = Layout(appRoot: Path, basePath: Path)

  predicate LayoutOk(l: Layout)
  {
    l.appRoot.absolute && l.basePath.absolute && WellFormed(l.appRoot) && WellFormed(l.basePath)
  }

  function ConfigFile(l: Layout): Path { Child(l.appRoot, "config.json") }
  function ConfigFallbacks(l: Layout): seq<Path> { [Child(l.basePath, "config.json")] }
  function AssetsDir(l: Layout): Path { Child(l.basePath, "assets") }
  function LangDir(l: Layout): Path { Child(AssetsDir(l), "lang") }
  function DefaultUiAssetsDir(l: Layout): Path { Child(AssetsDir(l), "ui_assets") }
  function UserDataDir(l: Layout): Path { Child(l.appRoot, "user_data") }
  function UserAssetsDir(l: Layout): Path { Child(UserDataDir(l), "assets") }
  function UiAssetsDir(l: Layout): Path { Child(UserAssetsDir(l), "ui_assets") }

  /** LANG_DIR / code / "messages.json". */
  function LangFile(l: Layout, code: string): Path
  {
    Child(Child(LangDir(l), code), "messages.json")
  }

  /** _load_language_file: the decoded catalog, or {} when the file is
      missing or does not decode. */
  function LoadLanguageFile(fs: FileSystem, l: Layout, code: string): (r: Catalog)
    ensures !Exists(fs, LangFile(l, code)) ==> r == map[]
    ensures LangFile(l, code) !in fs.catalogs ==> r == map[]
    ensures LangFile(l, code) in fs.files && LangFile(l, code) in fs.catalogs ==> r == fs.catalogs[LangFile(l, code)]
  {
    var f := LangFile(l, code);
    if f in fs.files && f in fs.catalogs then fs.catalogs[f] else map[]
  }

  const BackgroundBasename := "background"

  /** Names matching the glob pattern "background.*". */
  predicate IsBackgroundName(name: string)
  {
    StartsWith(name, BackgroundBasename + ".")
  }

  /** The names glob("background.*") yields in dir: every entry, file or
      directory, directly inside dir whose name matches. */
  function BackgroundEntries(fs: FileSystem, dir: Path): (r: set<string>)
    ensures forall n :: n in r <==> IsBackgroundName(n) && Exists(fs, Child(dir, n))
  {
    var r := set p | p in fs.files + fs.dirs && p.parts != [] && Parent(p) == dir && IsBackgroundName(Name(p)) :: Name(p);
    assert forall n :: IsBackgroundName(n) && Exists(fs, Child(dir, n)) ==> n in r by {
      forall n | IsBackgroundName(n) && Exists(fs, Child(dir, n))
        ensures n in r
      {
        ParentOfChild(dir, n);
      }
    }
    r
  }
}
